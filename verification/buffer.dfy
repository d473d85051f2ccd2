/**
 * The built token buffer: the expanded token stream and, per file, its
 * spelled tokens and the mapping records that relate the two. A record is
 * four plain indices; every stretch of a file no record covers maps to the
 * expanded stream one token for one token.
 */
module Buffer {
  import opened Locations
  import opened Tokens

  /**
   * Spelled tokens [beginSpelled, endSpelled) of one file correspond to
   * expanded tokens [beginExpanded, endExpanded) of the whole stream.
   */
  datatype Mapping = Mapping(beginSpelled: nat, endSpelled: nat, beginExpanded: nat, endExpanded: nat)

  /**
   * One file's share: its raw-lexed tokens, its records in increasing order,
   * and the slice [beginExpanded, endExpanded) of the expanded stream whose
   * expansion locations fall in this file.
   */
  datatype MarkedFile = MarkedFile(spelled: seq<Token>, mappings: seq<Mapping>, beginExpanded: nat, endExpanded: nat)

  datatype TokenBuffer = TokenBuffer(expanded: seq<Token>, files: map<FileId, MarkedFile>)

  /**
   * Records are well-formed intervals, and each one starts, on both sides,
   * no earlier than its predecessor ends.
   */
  ghost predicate Ordered(ms: seq<Mapping>)
  {
    && (forall k :: 0 <= k < |ms| ==>
          ms[k].beginSpelled <= ms[k].endSpelled && ms[k].beginExpanded <= ms[k].endExpanded)
    && (forall k :: 0 < k < |ms| ==>
          ms[k - 1].endSpelled <= ms[k].beginSpelled && ms[k - 1].endExpanded <= ms[k].beginExpanded)
  }

  /** Ordered records do not overlap at all, not only neighbour by neighbour. */
  lemma {:induction false} OrderedPairwise(ms: seq<Mapping>)
    requires Ordered(ms)
    ensures forall i, j :: 0 <= i < j < |ms| ==>
              ms[i].endSpelled <= ms[j].beginSpelled && ms[i].endExpanded <= ms[j].beginExpanded
  {
    if |ms| > 1 {
      var init := ms[..|ms| - 1];
      assert Ordered(init);
      OrderedPairwise(init);
      forall i, j | 0 <= i < j < |ms|
        ensures ms[i].endSpelled <= ms[j].beginSpelled && ms[i].endExpanded <= ms[j].beginExpanded
      {
        if j < |ms| - 1 {
          assert init[i] == ms[i] && init[j] == ms[j];
        } else if i < j - 1 {
          assert init[i] == ms[i] && init[j - 1] == ms[j - 1];
        }
      }
    }
  }

  /** Concatenating ordered runs that meet in order keeps them ordered. */
  lemma OrderedAppend(a: seq<Mapping>, b: seq<Mapping>)
    requires Ordered(a) && Ordered(b)
    requires |a| > 0 && |b| > 0 ==>
               a[|a| - 1].endSpelled <= b[0].beginSpelled && a[|a| - 1].endExpanded <= b[0].beginExpanded
    ensures Ordered(a + b)
  {
    var c := a + b;
    forall k | 0 < k < |c|
      ensures c[k - 1].endSpelled <= c[k].beginSpelled && c[k - 1].endExpanded <= c[k].beginExpanded
    {
      if k < |a| {
        assert c[k - 1] == a[k - 1] && c[k] == a[k];
      } else if k == |a| {
        assert c[k - 1] == a[|a| - 1] && c[k] == b[0];
      } else {
        assert c[k - 1] == b[k - 1 - |a|] && c[k] == b[k - |a|];
      }
    }
  }

  /**
   * What the builder guarantees of every file: ordered records that stay
   * inside the file's spelled tokens and inside its expanded slice.
   */
  ghost predicate WellFormedFile(f: MarkedFile)
  {
    && f.beginExpanded <= f.endExpanded
    && Ordered(f.mappings)
    && (forall k :: 0 <= k < |f.mappings| ==>
          && f.mappings[k].endSpelled <= |f.spelled|
          && f.beginExpanded <= f.mappings[k].beginExpanded
          && f.mappings[k].endExpanded <= f.endExpanded)
  }

  /** `i` lies in the expanded range of record `m`. */
  predicate InExpanded(m: Mapping, i: nat)
  {
    m.beginExpanded <= i < m.endExpanded
  }

  ghost predicate WellFormed(buf: TokenBuffer)
  {
    forall f :: f in buf.files ==>
      WellFormedFile(buf.files[f]) && buf.files[f].endExpanded <= |buf.expanded|
  }
}
