/**
 * The live recorder attached to one preprocessing pass. It appends every
 * non-annotation token the preprocessor emits to the expanded stream, and
 * on each macro-expansion event keeps the span only when it is top-level:
 * its end is a file location strictly after the end of the last span kept.
 * Once detached it ignores everything.
 */
module Recorder {
  import opened Wrappers
  import opened Locations
  import opened Tokens

  /**
   * `expansions` maps the expansion location where a top-level macro
   * invocation starts to the file location where it ends.
   */
  datatype Recorder = Recorder(
    attached: bool,
    expanded: seq<Token>,
    expansions: map<FilePos, FilePos>,
    lastExpansionEnd: Option<FilePos>)

  /** A recorder just attached to a preprocessor. */
  function Start(): Recorder
  {
    Recorder(true, [], map[], None)
  }

  /** Detach: from now on every event is ignored and the captured data stays as it is. */
  function Disable(r: Recorder): (d: Recorder)
    ensures !d.attached
    ensures d.expanded == r.expanded && d.expansions == r.expansions
    ensures d.lastExpansionEnd == r.lastExpansionEnd
  {
    r.(attached := false)
  }

  /** The token watcher: annotation tokens are internal and are not part of the expanded stream. */
  function OnToken(r: Recorder, t: Token): (r': Recorder)
    ensures r'.attached == r.attached
    ensures r'.expansions == r.expansions && r'.lastExpansionEnd == r.lastExpansionEnd
    ensures r'.expanded == if r.attached && t.kind != Annotation then r.expanded + [t] else r.expanded
  {
    if !r.attached || t.kind == Annotation then r else r.(expanded := r.expanded + [t])
  }

  /**
   * An expansion spanning [begin, end] is kept only while attached, only
   * when its end is in a file, and only when that end comes strictly after
   * the last kept end in translation-unit order.
   */
  predicate Keeps(before: (Loc, Loc) -> bool, r: Recorder, end: Loc)
  {
    && r.attached
    && end.FileLoc?
    && (r.lastExpansionEnd.None? || before(FileLoc(r.lastExpansionEnd.value), end))
  }

  /**
   * One macro-expansion event. A kept span is filed under the expansion
   * location of its begin, so a span that starts inside another macro's
   * output overwrites the end recorded for that macro's start.
   */
  function MacroExpands(before: (Loc, Loc) -> bool, r: Recorder, begin: Loc, end: Loc): (r': Recorder)
    ensures !Keeps(before, r, end) ==> r' == r
    ensures Keeps(before, r, end) ==>
              && r'.attached && r'.expanded == r.expanded
              && r'.expansions.Keys == r.expansions.Keys + {ExpansionLoc(begin)}
              && r'.expansions[ExpansionLoc(begin)] == end.pos
              && (forall k :: k in r.expansions && k != ExpansionLoc(begin) ==> r'.expansions[k] == r.expansions[k])
              && r'.lastExpansionEnd == Some(end.pos)
    ensures r'.lastExpansionEnd != r.lastExpansionEnd ==>
              r'.lastExpansionEnd.Some? &&
              (r.lastExpansionEnd.None? ||
               before(FileLoc(r.lastExpansionEnd.value), FileLoc(r'.lastExpansionEnd.value)))
  {
    if !Keeps(before, r, end) then r
    else
      r.(expansions := r.expansions[ExpansionLoc(begin) := end.pos], lastExpansionEnd := Some(end.pos))
  }

  /**
   * The last kept end is the latest of all recorded ends, and nothing is
   * recorded before the first span is kept.
   */
  ghost predicate EndsBounded(before: (Loc, Loc) -> bool, r: Recorder)
  {
    && (r.lastExpansionEnd.None? ==> r.expansions == map[])
    && (r.lastExpansionEnd.Some? ==>
          forall k :: k in r.expansions ==>
            r.expansions[k] == r.lastExpansionEnd.value ||
            before(FileLoc(r.expansions[k]), FileLoc(r.lastExpansionEnd.value)))
  }

  lemma MacroExpandsKeepsEndsBounded(before: (Loc, Loc) -> bool, r: Recorder, begin: Loc, end: Loc)
    requires Transitive(before) && EndsBounded(before, r)
    ensures EndsBounded(before, MacroExpands(before, r, begin, end))
  {
    var r' := MacroExpands(before, r, begin, end);
    if Keeps(before, r, end) && r.lastExpansionEnd.Some? {
      var last := FileLoc(r.lastExpansionEnd.value);
      forall k | k in r'.expansions
        ensures r'.expansions[k] == end.pos || before(FileLoc(r'.expansions[k]), FileLoc(end.pos))
      {
        if k != ExpansionLoc(begin) {
          assert FileLoc(r.expansions[k]) == last || before(FileLoc(r.expansions[k]), last);
        }
      }
    }
  }

  /** The preprocessor's callbacks, in the order it makes them. */
  datatype Event = TokenSeen(token: Token) | Expands(begin: Loc, end: Loc) | Detach

  /** The recorder after one event. */
  function Apply(before: (Loc, Loc) -> bool, r: Recorder, e: Event): Recorder
  {
    match e
    case TokenSeen(t) => OnToken(r, t)
    case Expands(b, end) => MacroExpands(before, r, b, end)
    case Detach => Disable(r)
  }

  /** The recorder after it has seen `events`. */
  function Replay(before: (Loc, Loc) -> bool, r: Recorder, events: seq<Event>): Recorder
    decreases |events|
  {
    if events == [] then r
    else Replay(before, Apply(before, r, events[0]), events[1..])
  }

  /** Once detached, no event changes the recorder. */
  lemma {:induction false} ReplayDetached(before: (Loc, Loc) -> bool, r: Recorder, events: seq<Event>)
    requires !r.attached
    ensures Replay(before, r, events) == r
    decreases |events|
  {
    if events != [] {
      ReplayDetached(before, r, events[1..]);
    }
  }

  /** The recorder's invariant survives any run of events. */
  lemma {:induction false} ReplayKeepsEndsBounded(before: (Loc, Loc) -> bool, r: Recorder, events: seq<Event>)
    requires Transitive(before) && EndsBounded(before, r)
    ensures EndsBounded(before, Replay(before, r, events))
    decreases |events|
  {
    if events != [] {
      var r1 := Apply(before, r, events[0]);
      if events[0].Expands? {
        MacroExpandsKeepsEndsBounded(before, r, events[0].begin, events[0].end);
      }
      ReplayKeepsEndsBounded(before, r1, events[1..]);
    }
  }

  /** The non-annotation tokens among `events`, in order. */
  function SeenTokens(events: seq<Event>): seq<Token>
  {
    if events == [] then []
    else if events[0].TokenSeen? && events[0].token.kind != Annotation then [events[0].token] + SeenTokens(events[1..])
    else SeenTokens(events[1..])
  }

  /** While attached, the expanded stream is exactly the non-annotation tokens seen, in order. */
  lemma {:induction false} ReplayCollectsTokens(before: (Loc, Loc) -> bool, r: Recorder, events: seq<Event>)
    requires r.attached
    requires forall i :: 0 <= i < |events| ==> !events[i].Detach?
    ensures Replay(before, r, events).expanded == r.expanded + SeenTokens(events)
    decreases |events|
  {
    if events != [] {
      var r1 := Apply(before, r, events[0]);
      var seen := if events[0].TokenSeen? && events[0].token.kind != Annotation then [events[0].token] else [];
      assert r1.attached && r1.expanded == r.expanded + seen;
      assert SeenTokens(events) == seen + SeenTokens(events[1..]);
      assert forall i :: 0 <= i < |events| - 1 ==> events[1..][i] == events[i + 1];
      ReplayCollectsTokens(before, r1, events[1..]);
      assert r.expanded + seen + SeenTokens(events[1..]) == r.expanded + (seen + SeenTokens(events[1..]));
    }
  }

  /**
   * A recorder attached afresh keeps its ends bounded through any run of
   * events, and until it is detached its expanded stream is exactly the
   * non-annotation tokens seen.
   */
  lemma ReplayFromStart(before: (Loc, Loc) -> bool, events: seq<Event>)
    requires Transitive(before)
    ensures EndsBounded(before, Replay(before, Start(), events))
    ensures (forall i :: 0 <= i < |events| ==> !events[i].Detach?) ==>
              Replay(before, Start(), events).expanded == SeenTokens(events)
  {
    ReplayKeepsEndsBounded(before, Start(), events);
    if forall i :: 0 <= i < |events| ==> !events[i].Detach? {
      ReplayCollectsTokens(before, Start(), events);
    }
  }
}
