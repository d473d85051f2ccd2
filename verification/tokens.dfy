/**
 * Tokens and file ranges: the small value types of the engine. A token is a
 * location, a length and a kind; a file range is a half-open byte range
 * inside one file.
 */
module Tokens {
  import opened Locations

  /** Only the kinds the engine inspects are told apart. */
  datatype TokenKind = Identifier | Eof | Annotation | Other(code: nat)

  datatype Token = Token(loc: Loc, length: nat, kind: TokenKind)

  /** The position just past the last character of a token. */
  function EndPos(t: Token): FilePos
  {
    FilePos(t.loc.pos.file, t.loc.pos.offset + t.length)
  }

  datatype FileRange = FileRange(file: FileId, begin: nat, end: nat)
  {
    predicate Valid()
    {
      begin <= end
    }

    function Length(): nat
      requires Valid()
    {
      end - begin
    }

    /** Byte `offset` of `file` lies inside this range. */
    predicate Covers(f: FileId, offset: nat)
    {
      f == file && begin <= offset < end
    }
  }

  /** A file range from two offsets; the caller guarantees their order. */
  function RangeFromOffsets(file: FileId, begin: nat, end: nat): (r: FileRange)
    requires begin <= end
    ensures r.file == file && r.begin == begin
    ensures r.Valid() && r.Length() == end - begin
    ensures forall o: nat :: r.Covers(file, o) <==> begin <= o < end
  {
    FileRange(file, begin, end)
  }

  /** A file range starting at a file location and spanning `length` bytes. */
  function RangeFromLength(begin: Loc, length: nat): (r: FileRange)
    requires begin.FileLoc?
    ensures r.Valid() && r.Length() == length
    ensures r.file == begin.pos.file && r.begin == begin.pos.offset
  {
    FileRange(begin.pos.file, begin.pos.offset, begin.pos.offset + length)
  }

  /** A file range between two file locations of the same file. */
  function RangeBetween(begin: Loc, end: Loc): (r: FileRange)
    requires begin.FileLoc? && end.FileLoc?
    requires begin.pos.file == end.pos.file
    requires begin.pos.offset <= end.pos.offset
    ensures r.file == begin.pos.file && r.begin == begin.pos.offset
    ensures r.Valid() && r.Length() == end.pos.offset - begin.pos.offset
    ensures forall o: nat :: r.Covers(begin.pos.file, o) <==> begin.pos.offset <= o < end.pos.offset
  {
    FileRange(begin.pos.file, begin.pos.offset, end.pos.offset)
  }

  /** The bytes a spelled token occupies. */
  function TokenRange(t: Token): (r: FileRange)
    requires t.loc.FileLoc?
    ensures r.file == t.loc.pos.file && r.begin == t.loc.pos.offset
    ensures r.Valid() && r.Length() == t.length
    ensures forall o: nat :: r.Covers(t.loc.pos.file, o) <==> t.loc.pos.offset <= o < EndPos(t).offset
  {
    RangeFromLength(t.loc, t.length)
  }

  /**
   * The bytes from the start of `first` to the end of `last`, two spelled
   * tokens of one file given in order (or the same token twice).
   */
  function TokensRange(first: Token, last: Token): (r: FileRange)
    requires first.loc.FileLoc? && last.loc.FileLoc?
    requires TokenRange(first).file == TokenRange(last).file
    requires TokenRange(first) == TokenRange(last) || TokenRange(first).end <= TokenRange(last).begin
    ensures r.Valid()
    ensures r.file == first.loc.pos.file
    ensures r.begin == first.loc.pos.offset && r.end == EndPos(last).offset
    ensures forall o: nat :: TokenRange(first).Covers(r.file, o) ==> r.Covers(r.file, o)
    ensures forall o: nat :: TokenRange(last).Covers(r.file, o) ==> r.Covers(r.file, o)
    ensures forall o: nat :: r.Covers(r.file, o) ==> first.loc.pos.offset <= o < EndPos(last).offset
  {
    var f := TokenRange(first);
    var l := TokenRange(last);
    FileRange(f.file, f.begin, l.end)
  }

  /**
   * What the raw lexer's output becomes in a file's spelled tokens: the
   * lexer always hands over a final token, which is kept unless it is the
   * end-of-file marker. As the lexer yields the marker only last, no stored
   * token is ever the marker.
   */
  function StoreLexed(raw: seq<Token>): (r: seq<Token>)
    requires |raw| > 0
    ensures r == raw[..|raw| - 1] || r == raw
    ensures |r| == |raw| - 1 <==> raw[|raw| - 1].kind == Eof
    ensures (forall i :: 0 <= i < |raw| - 1 ==> raw[i].kind != Eof) ==>
              forall i :: 0 <= i < |r| ==> r[i].kind != Eof
  {
    var last := raw[|raw| - 1];
    if last.kind == Eof then raw[..|raw| - 1] else raw
  }
}
