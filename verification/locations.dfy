/**
 * Source locations as the token engine sees them. The source manager that
 * hands them out is not part of this model; only the few facts the engine
 * asks of it are kept:
 *  - a file location is a (file, offset) pair;
 *  - a macro location carries the file location it was expanded at
 *    (what `getExpansionLoc` returns);
 *  - raw location order, which inside one file is offset order;
 *  - translation-unit order, supplied by the caller as a relation.
 */
module Locations {

  type FileId = nat

  /** A position inside one file's buffer. */
  datatype FilePos = FilePos(file: FileId, offset: nat)

  /** `pos` is the location itself for a file location and the expansion point otherwise. */
  datatype Loc = FileLoc(pos: FilePos) | MacroLoc(id: nat, pos: FilePos)

  /** The expansion location of `l`: itself when it is already in a file. */
  function ExpansionLoc(l: Loc): FilePos
  {
    l.pos
  }

  /** The file that owns `l`'s expansion location. */
  function FileOf(l: Loc): FileId
  {
    l.pos.file
  }

  /**
   * Raw location order. File locations are laid out file after file, so
   * comparing raw encodings compares (file, offset) lexicographically;
   * inside one file it is plain offset order.
   */
  predicate RawBefore(a: FilePos, b: FilePos)
  {
    a.file < b.file || (a.file == b.file && a.offset < b.offset)
  }

  predicate RawAtOrBefore(a: FilePos, b: FilePos)
  {
    RawBefore(a, b) || a == b
  }

  /** Translation-unit order is a strict order: transitive and irreflexive. */
  ghost predicate Transitive(before: (Loc, Loc) -> bool)
  {
    forall a, b, c :: before(a, b) && before(b, c) ==> before(a, c)
  }

  ghost predicate StrictTotal(before: (Loc, Loc) -> bool)
  {
    && Transitive(before)
    && (forall a :: !before(a, a))
    && (forall a, b :: a != b ==> before(a, b) || before(b, a))
  }
}
