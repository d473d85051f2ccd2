/**
 * Read-only queries on a built token buffer. Each is a partition-point
 * search over a sorted sequence followed by index arithmetic.
 */
module Queries {
  import opened Wrappers
  import opened Locations
  import opened Tokens
  import opened Buffer
  import opened Search

  /** A half-open index range [begin, end) into a token sequence. */
  datatype Span = Span(begin: nat, end: nat)

  // ---------------------------------------------------------------------------
  // Expanded tokens of a source range.

  /** The expanded stream is sorted by translation-unit order; tokens at one location may sit side by side. */
  ghost predicate SortedBy(before: (Loc, Loc) -> bool, s: seq<Token>)
  {
    forall i, j :: 0 <= i < j < |s| ==> !before(s[j].loc, s[i].loc)
  }

  /** `t` lies inside the closed source range [b, e]. */
  ghost predicate InWindow(before: (Loc, Loc) -> bool, t: Token, b: Loc, e: Loc)
  {
    !before(t.loc, b) && !before(e, t.loc)
  }

  /** In a sorted stream a token at or before another one comes first in translation-unit order or shares its location. */
  lemma SortedPair(before: (Loc, Loc) -> bool, s: seq<Token>, i: nat, j: nat)
    requires StrictTotal(before) && SortedBy(before, s)
    requires i < j < |s|
    ensures s[i].loc == s[j].loc || before(s[i].loc, s[j].loc)
  {
    assert !before(s[j].loc, s[i].loc);
  }

  lemma WindowPartitions(before: (Loc, Loc) -> bool, s: seq<Token>, b: Loc, e: Loc)
    requires StrictTotal(before) && SortedBy(before, s)
    ensures Partitioned(s, (t: Token) => before(t.loc, b))
    ensures Partitioned(s, (t: Token) => !before(e, t.loc))
  {
    forall i, j | 0 <= i < j < |s| && before(s[j].loc, b)
      ensures before(s[i].loc, b)
    {
      SortedPair(before, s, i, j);
    }
    forall i, j | 0 <= i < j < |s| && !before(e, s[j].loc)
      ensures !before(e, s[i].loc)
    {
      SortedPair(before, s, i, j);
    }
  }

  /**
   * The expanded tokens inside a source range: from the first token not
   * before the range's begin to the last token not after its end. An
   * invalid range (`None`) gives an empty result.
   */
  function ExpandedTokensIn(before: (Loc, Loc) -> bool, buf: TokenBuffer, range: Option<(Loc, Loc)>): (r: Span)
    requires StrictTotal(before) && SortedBy(before, buf.expanded)
    ensures r.begin <= r.end <= |buf.expanded|
    ensures range.None? ==> r.begin == r.end
    ensures range.Some? ==>
              forall i :: 0 <= i < |buf.expanded| ==>
                (r.begin <= i < r.end <==> InWindow(before, buf.expanded[i], range.value.0, range.value.1))
  {
    if range.None? then Span(0, 0)
    else
      var b := range.value.0;
      var e := range.value.1;
      WindowPartitions(before, buf.expanded, b, e);
      var lo := PartitionPoint(buf.expanded, (t: Token) => before(t.loc, b));
      var hi := PartitionPoint(buf.expanded, (t: Token) => !before(e, t.loc));
      if lo > hi then Span(0, 0) else Span(lo, hi)
  }

  /** A range whose end precedes its begin selects no tokens. */
  lemma ExpandedTokensReversed(before: (Loc, Loc) -> bool, buf: TokenBuffer, b: Loc, e: Loc)
    requires StrictTotal(before) && SortedBy(before, buf.expanded)
    requires before(e, b)
    ensures var r := ExpandedTokensIn(before, buf, Some((b, e))); r.begin == r.end
  {
    var r := ExpandedTokensIn(before, buf, Some((b, e)));
    if r.begin < r.end {
      OutsideReversedWindow(before, buf.expanded[r.begin], b, e);
    }
  }

  lemma OutsideReversedWindow(before: (Loc, Loc) -> bool, t: Token, b: Loc, e: Loc)
    requires StrictTotal(before) && before(e, b)
    ensures !InWindow(before, t, b, e)
  {
    assert t.loc == e || before(t.loc, e) || before(e, t.loc);
  }

  // ---------------------------------------------------------------------------
  // Spelled token of one expanded token.

  /** The spelled counterpart found for an expanded token, and the record it came from. */
  datatype SpelledHit = SpelledHit(spelled: nat, mapping: Option<Mapping>)

  /** The expanded token at `idx` belongs to a tracked, well-formed file whose slice has begun. */
  ghost predicate Traceable(buf: TokenBuffer, idx: nat)
  {
    && idx < |buf.expanded|
    && FileOf(buf.expanded[idx].loc) in buf.files
    && WellFormedFile(buf.files[FileOf(buf.expanded[idx].loc)])
    && buf.files[FileOf(buf.expanded[idx].loc)].beginExpanded <= idx
  }

  /** The file whose expansion location owns the expanded token at `idx`. */
  function Owner(buf: TokenBuffer, idx: nat): MarkedFile
    requires idx < |buf.expanded| && FileOf(buf.expanded[idx].loc) in buf.files
  {
    buf.files[FileOf(buf.expanded[idx].loc)]
  }

  lemma BeginsPartitioned(ms: seq<Mapping>, idx: nat)
    requires Ordered(ms)
    ensures Partitioned(ms, (m: Mapping) => m.beginExpanded <= idx)
  {
    OrderedPairwise(ms);
  }

  /** The hit for `idx` once the `k` records that begin at or before it are known; `base` is where the file's slice begins. */
  function HitAt(ms: seq<Mapping>, idx: nat, base: nat, k: nat): SpelledHit
    requires base <= idx && k <= |ms|
  {
    if k == 0 then SpelledHit(idx - base, None)
    else
      var m := ms[k - 1];
      if idx < m.endExpanded then SpelledHit(m.beginSpelled, Some(m))
      else SpelledHit(m.endSpelled + (idx - m.endExpanded), None)
  }

  /**
   * What the hit `r` for expanded token `idx` means, whichever record or gap
   * the token falls in: before every record it counts from the slice start
   * `base`; inside a record it is that record's first spelled token; after a
   * record and before the next it counts on from the record's end. It names
   * a record exactly when some record produced the token.
   */
  ghost predicate HitMeaning(ms: seq<Mapping>, idx: nat, base: nat, r: SpelledHit)
    requires base <= idx
  {
    && ((forall j :: 0 <= j < |ms| ==> idx < ms[j].beginExpanded) ==> r == SpelledHit(idx - base, None))
    && (forall j :: 0 <= j < |ms| && InExpanded(ms[j], idx) ==> r == SpelledHit(ms[j].beginSpelled, Some(ms[j])))
    && (forall j :: 0 <= j < |ms| && ms[j].endExpanded <= idx && (j + 1 == |ms| || idx < ms[j + 1].beginExpanded) ==>
          r == SpelledHit(ms[j].endSpelled + (idx - ms[j].endExpanded), None))
    && (r.mapping.Some? <==> exists j :: 0 <= j < |ms| && InExpanded(ms[j], idx))
  }

  /** The hit picked from the partition point has the meaning above. */
  lemma HitAtFacts(ms: seq<Mapping>, idx: nat, base: nat, k: nat)
    requires base <= idx && k <= |ms| && Ordered(ms)
    requires forall j :: 0 <= j < k ==> ms[j].beginExpanded <= idx
    requires forall j :: k <= j < |ms| ==> idx < ms[j].beginExpanded
    ensures HitMeaning(ms, idx, base, HitAt(ms, idx, base, k))
  {
    OrderedPairwise(ms);
    forall j | 0 <= j < |ms| && ms[j].endExpanded <= idx && (j + 1 == |ms| || idx < ms[j + 1].beginExpanded)
      ensures j == k - 1
    {
      assert ms[j].beginExpanded <= idx;
    }
  }

  /**
   * The spelled token an expanded token comes from. Outside every record
   * the correspondence is one for one, counted from the file's start or
   * from the end of the last record before the token; a token produced by
   * a record maps to the record's first spelled token.
   */
  function SpelledForExpandedToken(buf: TokenBuffer, idx: nat): (r: SpelledHit)
    requires Traceable(buf, idx)
    ensures HitMeaning(Owner(buf, idx).mappings, idx, Owner(buf, idx).beginExpanded, r)
  {
    var f := Owner(buf, idx);
    BeginsPartitioned(f.mappings, idx);
    var k := PartitionPoint(f.mappings, (m: Mapping) => m.beginExpanded <= idx);
    HitAtFacts(f.mappings, idx, f.beginExpanded, k);
    HitAt(f.mappings, idx, f.beginExpanded, k)
  }

  /**
   * Reference reading of the records: walk them in order, keeping the last
   * pair of positions known to correspond, and count one for one from there.
   */
  function Walk(ms: seq<Mapping>, idx: nat, spelled: nat, expanded: nat): SpelledHit
    requires expanded <= idx
  {
    if ms == [] || idx < ms[0].beginExpanded then SpelledHit(spelled + (idx - expanded), None)
    else if idx < ms[0].endExpanded then SpelledHit(ms[0].beginSpelled, Some(ms[0]))
    else Walk(ms[1..], idx, ms[0].endSpelled, ms[0].endExpanded)
  }

  /** The binary search over records agrees with walking them from the start of the file. */
  lemma SpelledForExpandedTokenIsWalk(buf: TokenBuffer, idx: nat)
    requires Traceable(buf, idx)
    ensures var f := Owner(buf, idx);
            SpelledForExpandedToken(buf, idx) == Walk(f.mappings, idx, 0, f.beginExpanded)
  {
    var f := Owner(buf, idx);
    var ms := f.mappings;
    OrderedPairwise(ms);
    BeginsPartitioned(ms, idx);
    var k := PartitionPoint(ms, (m: Mapping) => m.beginExpanded <= idx);
    WalkFrom(ms, idx, f.beginExpanded, k, 0);
  }

  /** Walking from record `i` on lands on the answer fixed by the last record starting at or before `idx`. */
  lemma {:induction false} WalkFrom(ms: seq<Mapping>, idx: nat, begin: nat, k: nat, i: nat)
    requires Ordered(ms) && begin <= idx
    requires forall a, b :: 0 <= a < b < |ms| ==> ms[a].endExpanded <= ms[b].beginExpanded
    requires k <= |ms|
    requires forall j :: 0 <= j < k ==> ms[j].beginExpanded <= idx
    requires forall j :: k <= j < |ms| ==> idx < ms[j].beginExpanded
    requires i <= k
    requires i > 0 ==> ms[i - 1].endExpanded <= idx
    ensures var sp := if i == 0 then 0 else ms[i - 1].endSpelled;
            var ex := if i == 0 then begin else ms[i - 1].endExpanded;
            Walk(ms[i..], idx, sp, ex) ==
              if k == 0 then SpelledHit(idx - begin, None)
              else if idx < ms[k - 1].endExpanded then SpelledHit(ms[k - 1].beginSpelled, Some(ms[k - 1]))
              else SpelledHit(ms[k - 1].endSpelled + (idx - ms[k - 1].endExpanded), None)
    decreases k - i
  {
    var rest := ms[i..];
    if i == k {
      if i < |ms| {
        assert rest[0] == ms[i];
      }
    } else {
      assert rest[0] == ms[i];
      if ms[i].endExpanded <= idx {
        assert rest[1..] == ms[i + 1..];
        WalkFrom(ms, idx, begin, k, i + 1);
      }
    }
  }

  /** In a file without records every expanded token maps to the spelled token at the same offset. */
  lemma SpelledForExpandedTokenIdentity(buf: TokenBuffer, idx: nat)
    requires Traceable(buf, idx)
    requires Owner(buf, idx).mappings == []
    ensures SpelledForExpandedToken(buf, idx) == SpelledHit(idx - Owner(buf, idx).beginExpanded, None)
  {
  }

  // ---------------------------------------------------------------------------
  // Spelled tokens of a range of expanded tokens.

  /** A range of one file's spelled tokens. */
  datatype SpelledSlice = SpelledSlice(file: FileId, begin: nat, end: nat)

  /** The expanded range `s` is non-empty and both of its ends can be traced. */
  ghost predicate RangeTraceable(buf: TokenBuffer, s: Span)
  {
    s.begin <= s.end <= |buf.expanded| &&
    (s.begin < s.end ==> Traceable(buf, s.begin) && Traceable(buf, s.end - 1))
  }

  /**
   * Some record's expanded output straddles `boundary`: it holds both the
   * token just before it and the token at it.
   */
  predicate Cuts(ms: seq<Mapping>, boundary: nat)
  {
    exists j :: 0 <= j < |ms| && ms[j].beginExpanded < boundary < ms[j].endExpanded
  }

  lemma CutsAt(ms: seq<Mapping>, j: nat, boundary: nat)
    requires j < |ms| && ms[j].beginExpanded < boundary < ms[j].endExpanded
    ensures Cuts(ms, boundary)
  {
  }

  /** The record found for the first token of a range starts before it exactly when some record straddles the range's begin. */
  lemma BeginCutByHit(buf: TokenBuffer, idx: nat)
    requires Traceable(buf, idx)
    ensures var h := SpelledForExpandedToken(buf, idx);
            h.mapping.Some? && h.mapping.value.beginExpanded < idx <==> Cuts(Owner(buf, idx).mappings, idx)
  {
    var ms := Owner(buf, idx).mappings;
    if Cuts(ms, idx) {
      var j :| 0 <= j < |ms| && ms[j].beginExpanded < idx < ms[j].endExpanded;
      assert InExpanded(ms[j], idx);
    }
  }

  /** The record found for the last token of a range runs past it exactly when some record straddles the range's end. */
  lemma EndCutByHit(buf: TokenBuffer, idx: nat)
    requires Traceable(buf, idx)
    ensures var h := SpelledForExpandedToken(buf, idx);
            h.mapping.Some? && idx + 1 < h.mapping.value.endExpanded <==> Cuts(Owner(buf, idx).mappings, idx + 1)
  {
    var ms := Owner(buf, idx).mappings;
    if Cuts(ms, idx + 1) {
      var j :| 0 <= j < |ms| && ms[j].beginExpanded < idx + 1 < ms[j].endExpanded;
      assert InExpanded(ms[j], idx);
    }
  }

  /**
   * The spelled tokens an expanded range was written as. Empty ranges,
   * ranges whose ends lie in different files and ranges that cut a macro
   * expansion's output in two have no answer; otherwise the result is
   * widened to whole invocations at both ends.
   */
  function SpelledForExpanded(buf: TokenBuffer, s: Span): (r: Option<SpelledSlice>)
    requires RangeTraceable(buf, s)
    ensures r.Some? <==>
              && s.begin < s.end
              && FileOf(buf.expanded[s.begin].loc) == FileOf(buf.expanded[s.end - 1].loc)
              && !Cuts(Owner(buf, s.begin).mappings, s.begin)
              && !Cuts(Owner(buf, s.end - 1).mappings, s.end)
    ensures r.Some? ==> r.value.file == FileOf(buf.expanded[s.begin].loc)
    ensures r.Some? && SpelledForExpandedToken(buf, s.begin).mapping.None? ==>
              r.value.begin == SpelledForExpandedToken(buf, s.begin).spelled
    ensures r.Some? && SpelledForExpandedToken(buf, s.end - 1).mapping.None? ==>
              r.value.end == SpelledForExpandedToken(buf, s.end - 1).spelled + 1
  {
    if s.begin == s.end then None
    else
      var first := SpelledForExpandedToken(buf, s.begin);
      var last := SpelledForExpandedToken(buf, s.end - 1);
      BeginCutByHit(buf, s.begin);
      EndCutByHit(buf, s.end - 1);
      var file := FileOf(buf.expanded[s.begin].loc);
      if file != FileOf(buf.expanded[s.end - 1].loc) then None
      else Widen(file, s, first, last)
  }

  /** Widen the hits for a range's first and last tokens to whole records, unless a record is cut at either end. */
  function Widen(file: FileId, s: Span, first: SpelledHit, last: SpelledHit): (r: Option<SpelledSlice>)
    ensures r.Some? <==>
              && !(first.mapping.Some? && first.mapping.value.beginExpanded < s.begin)
              && !(last.mapping.Some? && s.end < last.mapping.value.endExpanded)
    ensures r.Some? ==> r.value.file == file
    ensures r.Some? ==> r.value.begin == if first.mapping.Some? then first.mapping.value.beginSpelled else first.spelled
    ensures r.Some? ==> r.value.end == if last.mapping.Some? then last.mapping.value.endSpelled else last.spelled + 1
  {
    if first.mapping.Some? && first.mapping.value.beginExpanded < s.begin then None
    else if last.mapping.Some? && s.end < last.mapping.value.endExpanded then None
    else
      var begin := if first.mapping.Some? then first.mapping.value.beginSpelled else first.spelled;
      var end := if last.mapping.Some? then last.mapping.value.endSpelled else last.spelled + 1;
      Some(SpelledSlice(file, begin, end))
  }

  /** A range that starts strictly inside a record's expanded output has no spelled form. */
  lemma SpelledForExpandedRejectsBeginCut(buf: TokenBuffer, s: Span, j: nat)
    requires RangeTraceable(buf, s) && s.begin < s.end
    requires j < |Owner(buf, s.begin).mappings|
    requires var m := Owner(buf, s.begin).mappings[j]; m.beginExpanded < s.begin < m.endExpanded
    ensures SpelledForExpanded(buf, s).None?
  {
    CutsAt(Owner(buf, s.begin).mappings, j, s.begin);
  }

  /** A range that stops strictly inside a record's expanded output has no spelled form. */
  lemma SpelledForExpandedRejectsEndCut(buf: TokenBuffer, s: Span, j: nat)
    requires RangeTraceable(buf, s) && s.begin < s.end
    requires j < |Owner(buf, s.end - 1).mappings|
    requires var m := Owner(buf, s.end - 1).mappings[j]; InExpanded(m, s.end - 1) && s.end < m.endExpanded
    ensures SpelledForExpanded(buf, s).None?
  {
    CutsAt(Owner(buf, s.end - 1).mappings, j, s.end);
  }

  /** An answered range covers whole records at both ends: their spelled tokens are taken whole. */
  lemma SpelledForExpandedWidens(buf: TokenBuffer, s: Span, j: nat, k: nat)
    requires RangeTraceable(buf, s) && SpelledForExpanded(buf, s).Some?
    requires j < |Owner(buf, s.begin).mappings| && k < |Owner(buf, s.end - 1).mappings|
    ensures var r := SpelledForExpanded(buf, s).value;
            var m := Owner(buf, s.begin).mappings[j];
            InExpanded(m, s.begin) ==> m.beginExpanded == s.begin && r.begin == m.beginSpelled
    ensures var r := SpelledForExpanded(buf, s).value;
            var m := Owner(buf, s.end - 1).mappings[k];
            InExpanded(m, s.end - 1) ==> m.endExpanded == s.end && r.end == m.endSpelled
  {
  }

  /**
   * Asking for exactly the output of one macro expansion gives exactly the
   * spelled tokens of its invocation.
   */
  lemma SpelledForWholeExpansion(buf: TokenBuffer, file: FileId, j: nat)
    requires file in buf.files && WellFormedFile(buf.files[file])
    requires j < |buf.files[file].mappings|
    requires var m := buf.files[file].mappings[j];
             && m.beginExpanded < m.endExpanded <= |buf.expanded|
             && FileOf(buf.expanded[m.beginExpanded].loc) == file
             && FileOf(buf.expanded[m.endExpanded - 1].loc) == file
    ensures var m := buf.files[file].mappings[j];
            SpelledForExpanded(buf, Span(m.beginExpanded, m.endExpanded)) ==
              Some(SpelledSlice(file, m.beginSpelled, m.endSpelled))
  {
    var m := buf.files[file].mappings[j];
    var s := Span(m.beginExpanded, m.endExpanded);
    assert InExpanded(m, s.begin) && InExpanded(m, s.end - 1);
  }

  /** In a file without records an expanded range maps to the spelled range at the same offsets. */
  lemma SpelledForExpandedIdentity(buf: TokenBuffer, s: Span)
    requires RangeTraceable(buf, s) && s.begin < s.end
    requires FileOf(buf.expanded[s.begin].loc) == FileOf(buf.expanded[s.end - 1].loc)
    requires Owner(buf, s.begin).mappings == []
    ensures var f := Owner(buf, s.begin);
            SpelledForExpanded(buf, s) ==
              Some(SpelledSlice(FileOf(buf.expanded[s.begin].loc), s.begin - f.beginExpanded, s.end - f.beginExpanded))
  {
    var f := Owner(buf, s.begin);
    assert Owner(buf, s.end - 1) == f;
    assert !Cuts(f.mappings, s.begin) && !Cuts(f.mappings, s.end);
    assert SpelledForExpandedToken(buf, s.begin) == SpelledHit(s.begin - f.beginExpanded, None);
    assert SpelledForExpandedToken(buf, s.end - 1) == SpelledHit(s.end - 1 - f.beginExpanded, None);
  }

  // ---------------------------------------------------------------------------
  // The expansion a spelled token starts.

  /** The spelled and expanded tokens of one recorded macro expansion. */
  datatype Expansion = Expansion(spelled: seq<Token>, expanded: seq<Token>)

  /** The spelled token `idx` of `file` can be looked up in a tracked, well-formed file. */
  ghost predicate SpelledTraceable(buf: TokenBuffer, file: FileId, idx: nat)
  {
    && file in buf.files
    && WellFormedFile(buf.files[file])
    && buf.files[file].endExpanded <= |buf.expanded|
    && idx < |buf.files[file].spelled|
  }

  /** The tokens record `m` relates. */
  function Slices(buf: TokenBuffer, f: MarkedFile, m: Mapping): Expansion
    requires m.beginSpelled <= m.endSpelled <= |f.spelled|
    requires m.beginExpanded <= m.endExpanded <= |buf.expanded|
  {
    Expansion(f.spelled[m.beginSpelled..m.endSpelled], buf.expanded[m.beginExpanded..m.endExpanded])
  }

  lemma SpelledBeginsPartitioned(ms: seq<Mapping>, idx: nat)
    requires Ordered(ms)
    ensures Partitioned(ms, (m: Mapping) => m.beginSpelled < idx)
  {
    OrderedPairwise(ms);
  }

  /**
   * The macro expansion whose invocation starts exactly at spelled token
   * `idx`, if a record starts there; the first such record when several do.
   */
  function ExpansionStartingAt(buf: TokenBuffer, file: FileId, idx: nat): (r: Option<Expansion>)
    requires SpelledTraceable(buf, file, idx)
    ensures var ms := buf.files[file].mappings;
            r.Some? <==> exists j :: 0 <= j < |ms| && ms[j].beginSpelled == idx
    ensures var f := buf.files[file];
            forall j :: 0 <= j < |f.mappings| && f.mappings[j].beginSpelled == idx &&
                        (j == 0 || f.mappings[j - 1].beginSpelled < idx) ==>
              r == Some(Slices(buf, f, f.mappings[j]))
  {
    var f := buf.files[file];
    SpelledBeginsPartitioned(f.mappings, idx);
    OrderedPairwise(f.mappings);
    var k := PartitionPoint(f.mappings, (m: Mapping) => m.beginSpelled < idx);
    if k == |f.mappings| || f.mappings[k].beginSpelled != idx then None
    else Some(Slices(buf, f, f.mappings[k]))
  }

  /** A spelled token strictly inside a macro invocation starts no expansion. */
  lemma {:induction false} NoExpansionStartsMidInvocation(buf: TokenBuffer, file: FileId, idx: nat, j: nat)
    requires SpelledTraceable(buf, file, idx)
    requires j < |buf.files[file].mappings|
    requires var m := buf.files[file].mappings[j]; m.beginSpelled < idx < m.endSpelled
    ensures ExpansionStartingAt(buf, file, idx).None?
  {
    var ms := buf.files[file].mappings;
    OrderedPairwise(ms);
    forall i | 0 <= i < |ms|
      ensures ms[i].beginSpelled != idx
    {
      if i < j {
        assert ms[i].endSpelled <= ms[j].beginSpelled;
      } else if j < i {
        assert ms[j].endSpelled <= ms[i].beginSpelled;
      }
    }
  }

  // ---------------------------------------------------------------------------
  // Spelled tokens touching a location.

  /** Spelled tokens of one file are in location order. */
  ghost predicate SortedByPos(s: seq<Token>)
  {
    forall i, j :: 0 <= i < j < |s| ==> RawAtOrBefore(s[i].loc.pos, s[j].loc.pos)
  }

  /** `s[i]` is the first token that does not start before `loc`. */
  ghost predicate FirstNotBefore(s: seq<Token>, i: nat, loc: FilePos)
    requires i < |s|
  {
    !RawBefore(s[i].loc.pos, loc) && (i == 0 || RawBefore(s[i - 1].loc.pos, loc))
  }

  /** `s[i]` is the last token that starts before `loc`. */
  ghost predicate LastBefore(s: seq<Token>, i: nat, loc: FilePos)
    requires i < |s|
  {
    RawBefore(s[i].loc.pos, loc) && (i + 1 == |s| || !RawBefore(s[i + 1].loc.pos, loc))
  }

  /**
   * `s[i]` touches `loc`: it is the first token not before `loc` and starts
   * exactly there, or it is the last token before `loc` and ends at or
   * after it.
   */
  ghost predicate Touches(s: seq<Token>, i: nat, loc: FilePos)
    requires i < |s|
  {
    || (FirstNotBefore(s, i, loc) && RawAtOrBefore(s[i].loc.pos, loc))
    || (LastBefore(s, i, loc) && RawAtOrBefore(loc, EndPos(s[i])))
  }

  lemma PosPartitioned(s: seq<Token>, loc: FilePos)
    requires SortedByPos(s)
    ensures Partitioned(s, (t: Token) => RawBefore(t.loc.pos, loc))
  {
  }

  /** The spelled tokens of `loc`'s file that touch `loc`: at most two, and adjacent. */
  function SpelledTokensTouching(buf: TokenBuffer, loc: FilePos): (r: Span)
    requires loc.file in buf.files && SortedByPos(buf.files[loc.file].spelled)
    ensures var s := buf.files[loc.file].spelled;
            r.begin <= r.end <= |s| && r.end - r.begin <= 2
    ensures var s := buf.files[loc.file].spelled;
            forall i :: 0 <= i < |s| ==> (r.begin <= i < r.end <==> Touches(s, i, loc))
  {
    var s := buf.files[loc.file].spelled;
    PosPartitioned(s, loc);
    var right := PartitionPoint(s, (t: Token) => RawBefore(t.loc.pos, loc));
    var acceptRight := right < |s| && RawAtOrBefore(s[right].loc.pos, loc);
    var acceptLeft := right > 0 && RawAtOrBefore(loc, EndPos(s[right - 1]));
    Span(if acceptLeft then right - 1 else right, if acceptRight then right + 1 else right)
  }

  /** A location strictly inside a token touches only that token. */
  lemma TouchingInsideToken(buf: TokenBuffer, loc: FilePos, i: nat)
    requires loc.file in buf.files && SortedByPos(buf.files[loc.file].spelled)
    requires var s := buf.files[loc.file].spelled;
             && i < |s|
             && RawBefore(s[i].loc.pos, loc) && RawBefore(loc, EndPos(s[i]))
             && (i + 1 < |s| ==> RawAtOrBefore(EndPos(s[i]), s[i + 1].loc.pos))
    ensures SpelledTokensTouching(buf, loc) == Span(i, i + 1)
  {
    var s := buf.files[loc.file].spelled;
    var r := SpelledTokensTouching(buf, loc);
    assert Touches(s, i, loc);
    if i + 1 < |s| {
      assert !Touches(s, i + 1, loc);
    }
    if i > 0 {
      assert !Touches(s, i - 1, loc);
    }
  }

  /** The boundary between two adjacent tokens touches both of them. */
  lemma TouchingBoundary(buf: TokenBuffer, loc: FilePos, i: nat)
    requires loc.file in buf.files && SortedByPos(buf.files[loc.file].spelled)
    requires var s := buf.files[loc.file].spelled;
             i + 1 < |s| && RawBefore(s[i].loc.pos, loc) && EndPos(s[i]) == loc && s[i + 1].loc.pos == loc
    ensures SpelledTokensTouching(buf, loc) == Span(i, i + 2)
  {
    var s := buf.files[loc.file].spelled;
    var r := SpelledTokensTouching(buf, loc);
    assert Touches(s, i, loc) && Touches(s, i + 1, loc);
    if i + 2 < |s| {
      assert !Touches(s, i + 2, loc);
    }
    if i > 0 {
      assert !Touches(s, i - 1, loc);
    }
  }

  /** The first identifier inside a span of at most two tokens. */
  function FirstIdentifier(s: seq<Token>, t: Span): (r: Option<nat>)
    requires t.begin <= t.end <= |s| && t.end - t.begin <= 2
    ensures r.Some? ==> t.begin <= r.value < t.end && s[r.value].kind == Identifier
    ensures r.Some? ==> forall i :: t.begin <= i < r.value ==> s[i].kind != Identifier
    ensures r.None? ==> forall i :: t.begin <= i < t.end ==> s[i].kind != Identifier
  {
    if t.begin < t.end && s[t.begin].kind == Identifier then Some(t.begin)
    else if t.begin + 1 < t.end && s[t.begin + 1].kind == Identifier then Some(t.begin + 1)
    else None
  }

  /** The first identifier among the spelled tokens touching `loc`, as an index into its file's tokens. */
  function SpelledIdentifierTouching(buf: TokenBuffer, loc: FilePos): (r: Option<nat>)
    requires loc.file in buf.files && SortedByPos(buf.files[loc.file].spelled)
    ensures var s := buf.files[loc.file].spelled;
            r.Some? ==> r.value < |s| && Touches(s, r.value, loc) && s[r.value].kind == Identifier
    ensures var s := buf.files[loc.file].spelled;
            r.Some? ==> forall i :: 0 <= i < r.value && Touches(s, i, loc) ==> s[i].kind != Identifier
    ensures var s := buf.files[loc.file].spelled;
            r.None? ==> forall i :: 0 <= i < |s| && Touches(s, i, loc) ==> s[i].kind != Identifier
  {
    FirstIdentifier(buf.files[loc.file].spelled, SpelledTokensTouching(buf, loc))
  }

  // ---------------------------------------------------------------------------
  // Macro expansions of a file.

  /** The records, from `lo` on, whose first spelled token is an identifier. */
  ghost function IdentifierRecords(s: seq<Token>, ms: seq<Mapping>, lo: nat): set<nat>
    requires forall k :: 0 <= k < |ms| ==> ms[k].beginSpelled < |s|
  {
    set k | lo <= k < |ms| && s[ms[k].beginSpelled].kind == Identifier
  }

  /** Peeling record `lo` off the identifier records, and the size that leaves. */
  lemma IdentifierRecordsStep(s: seq<Token>, ms: seq<Mapping>, lo: nat)
    requires forall k :: 0 <= k < |ms| ==> ms[k].beginSpelled < |s|
    ensures lo >= |ms| ==> |IdentifierRecords(s, ms, lo)| == 0
    ensures lo < |ms| ==>
              |IdentifierRecords(s, ms, lo)| ==
                |IdentifierRecords(s, ms, lo + 1)| + (if s[ms[lo].beginSpelled].kind == Identifier then 1 else 0)
  {
    var all := IdentifierRecords(s, ms, lo);
    if lo >= |ms| {
      assert all == {};
    } else {
      var others := IdentifierRecords(s, ms, lo + 1);
      assert lo !in others;
      if s[ms[lo].beginSpelled].kind == Identifier {
        assert all == others + {lo};
      } else {
        assert all == others;
      }
    }
  }

  /**
   * The first spelled token of every record from `lo` on whose first token
   * is an identifier, one entry per such record, in record order.
   */
  function IdentifierStarts(s: seq<Token>, ms: seq<Mapping>, lo: nat): (r: seq<nat>)
    requires forall k :: 0 <= k < |ms| ==> ms[k].beginSpelled < |s|
    ensures forall i :: 0 <= i < |r| ==> r[i] < |s| && s[r[i]].kind == Identifier
    ensures forall x :: x in r <==>
              exists k :: lo <= k < |ms| && ms[k].beginSpelled == x && s[x].kind == Identifier
    decreases |ms| - lo
  {
    if lo >= |ms| then []
    else
      var rest := IdentifierStarts(s, ms, lo + 1);
      if s[ms[lo].beginSpelled].kind == Identifier then [ms[lo].beginSpelled] + rest else rest
  }

  /** One entry per record whose first spelled token is an identifier. */
  lemma {:induction false} IdentifierStartsCount(s: seq<Token>, ms: seq<Mapping>, lo: nat)
    requires forall k :: 0 <= k < |ms| ==> ms[k].beginSpelled < |s|
    ensures |IdentifierStarts(s, ms, lo)| == |IdentifierRecords(s, ms, lo)|
    decreases |ms| - lo
  {
    IdentifierRecordsStep(s, ms, lo);
    if lo < |ms| {
      IdentifierStartsCount(s, ms, lo + 1);
    }
  }

  /** Records whose first spelled tokens never go backwards. */
  ghost predicate StartsRise(ms: seq<Mapping>)
  {
    forall a, b :: 0 <= a < b < |ms| ==> ms[a].beginSpelled <= ms[b].beginSpelled
  }

  /** A sequence of positions that never goes backwards. */
  ghost predicate NonDecreasing(r: seq<nat>)
  {
    forall i, j :: 0 <= i < j < |r| ==> r[i] <= r[j]
  }

  /** Putting a position no later than any entry in front keeps the order. */
  lemma PrependNonDecreasing(x: nat, rest: seq<nat>)
    requires NonDecreasing(rest) && forall i :: 0 <= i < |rest| ==> x <= rest[i]
    ensures NonDecreasing([x] + rest)
  {
    var r := [x] + rest;
    forall i, j | 0 <= i < j < |r|
      ensures r[i] <= r[j]
    {
      assert r[j] == rest[j - 1];
      if i > 0 {
        assert r[i] == rest[i - 1];
      }
    }
  }

  /** Over records with rising starts the entries come out in spelled order. */
  lemma {:induction false} IdentifierStartsSorted(s: seq<Token>, ms: seq<Mapping>, lo: nat)
    requires forall k :: 0 <= k < |ms| ==> ms[k].beginSpelled < |s|
    ensures var r := IdentifierStarts(s, ms, lo);
            StartsRise(ms) ==>
              && NonDecreasing(r)
              && forall i :: 0 <= i < |r| ==> lo < |ms| && ms[lo].beginSpelled <= r[i]
    decreases |ms| - lo
  {
    if lo < |ms| && StartsRise(ms) {
      IdentifierStartsSorted(s, ms, lo + 1);
      var x := ms[lo].beginSpelled;
      var rest := IdentifierStarts(s, ms, lo + 1);
      assert forall i :: 0 <= i < |rest| ==> x <= rest[i] by {
        if lo + 1 < |ms| {
          assert x <= ms[lo + 1].beginSpelled;
        }
      }
      if s[x].kind == Identifier {
        PrependNonDecreasing(x, rest);
      }
    }
  }

  /** Ordered records have rising starts. */
  lemma OrderedStartsRise(ms: seq<Mapping>)
    ensures Ordered(ms) ==> StartsRise(ms)
  {
    if Ordered(ms) {
      OrderedPairwise(ms);
    }
  }

  /**
   * The spelled tokens that start recorded expansions and look like macro
   * names. Identifier shape is the only test: empty records of other
   * tokens are dropped, and nothing checks the name really is a macro.
   */
  function MacroExpansions(buf: TokenBuffer, file: FileId): (r: seq<nat>)
    requires file in buf.files
    requires var f := buf.files[file];
             forall k :: 0 <= k < |f.mappings| ==> f.mappings[k].beginSpelled < |f.spelled|
    ensures var f := buf.files[file];
            forall x: nat :: x in r <==>
              x < |f.spelled| && f.spelled[x].kind == Identifier &&
              exists k :: 0 <= k < |f.mappings| && f.mappings[k].beginSpelled == x
    ensures var f := buf.files[file];
            |r| == |set k | 0 <= k < |f.mappings| && f.spelled[f.mappings[k].beginSpelled].kind == Identifier|
    ensures Ordered(buf.files[file].mappings) ==> NonDecreasing(r)
  {
    var f := buf.files[file];
    IdentifierStartsCount(f.spelled, f.mappings, 0);
    assert IdentifierRecords(f.spelled, f.mappings, 0) ==
           set k | 0 <= k < |f.mappings| && f.spelled[f.mappings[k].beginSpelled].kind == Identifier;
    OrderedStartsRise(f.mappings);
    IdentifierStartsSorted(f.spelled, f.mappings, 0);
    IdentifierStarts(f.spelled, f.mappings, 0)
  }
}
