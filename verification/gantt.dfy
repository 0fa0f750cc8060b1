/** One session's timeline in the fleet Gantt: three passes over its events, which together
    refine a pointwise reading of them. Times are nanoseconds. */
module Gantt {
  import opened Wrappers

  datatype EventKind = User | PermissionRequest | ToolUse | Text | ResultEvent | Exit | Other
  datatype Event = Event(at: int, kind: EventKind)
  datatype Kind = Running | Waiting | Idle
  datatype Segment = Segment(kind: Kind, start: int, end: int)

  const MIN_IDLE := 5 * 1_000_000_000

  // ---------------------------------------------------------------- the pointwise reading

  /** What a session is doing: nothing, or one kind of busy. */
  datatype Phase = Closed | Busy(kind: Kind)

  function PhaseStep(p: Phase, e: EventKind): Phase {
    match e
    case User => Busy(Running)
    case PermissionRequest => Busy(Waiting)
    case ToolUse => if p == Busy(Waiting) then Busy(Running) else p
    case Text => if p == Busy(Waiting) then Busy(Running) else p
    case ResultEvent => Closed
    case Exit => Closed
    case Other => p
  }

  /** What the events up to instant t leave the session doing. */
  function PhaseAt(evs: seq<Event>, t: int): Phase
    decreases |evs|
  {
    if evs == [] then Closed
    else
      var p := PhaseAt(evs[..|evs| - 1], t);
      var e := evs[|evs| - 1];
      if e.at <= t then PhaseStep(p, e.kind) else p
  }

  predicate NonDecreasing(evs: seq<Event>) {
    forall i, j :: 0 <= i < j < |evs| ==> evs[i].at <= evs[j].at
  }

  predicate Contains(s: Segment, t: int) {
    s.start <= t < s.end
  }

  /** Some segment of this kind contains t. */
  ghost predicate Covers(segs: seq<Segment>, kind: Kind, t: int) {
    exists k :: 0 <= k < |segs| && segs[k].kind == kind && Contains(segs[k], t)
  }

  /** Segments follow each other without overlap. */
  ghost predicate Disjoint(segs: seq<Segment>) {
    forall k, l :: 0 <= k < l < |segs| ==> segs[k].end <= segs[l].start
  }

  // ---------------------------------------------------------------- the three passes as functions

  /** Segments closed so far, and the open one (kind and start) if any. */
  datatype Scan = Scan(segs: seq<Segment>, open: Option<Segment>)

  function Closing(segs: seq<Segment>, open: Option<Segment>, end: int): seq<Segment> {
    if open.Some? then segs + [open.value.(end := end)] else segs
  }

  function CloseAt(sc: Scan, end: int): Scan {
    Scan(Closing(sc.segs, sc.open, end), None)
  }

  function OpenAt(sc: Scan, kind: Kind, at: int): Scan {
    CloseAt(sc, at).(open := Some(Segment(kind, at, at)))
  }

  function ScanStep(sc: Scan, e: Event): Scan {
    match e.kind
    case User => OpenAt(sc, Running, e.at)
    case PermissionRequest => OpenAt(sc, Waiting, e.at)
    case ToolUse => if sc.open.Some? && sc.open.value.kind == Waiting then OpenAt(sc, Running, e.at) else sc
    case Text => if sc.open.Some? && sc.open.value.kind == Waiting then OpenAt(sc, Running, e.at) else sc
    case ResultEvent => CloseAt(sc, e.at)
    case Exit => CloseAt(sc, e.at)
    case Other => sc
  }

  function ScanOf(evs: seq<Event>): Scan
    decreases |evs|
  {
    if evs == [] then Scan([], None) else ScanStep(ScanOf(evs[..|evs| - 1]), evs[|evs| - 1])
  }

  function Clip(s: Segment, from: int, to: int): Segment {
    Segment(s.kind, if s.start < from then from else s.start, if s.end > to then to else s.end)
  }

  function Clipped(segs: seq<Segment>, from: int, to: int): seq<Segment>
    decreases |segs|
  {
    if segs == [] then []
    else
      var c := Clip(segs[|segs| - 1], from, to);
      Clipped(segs[..|segs| - 1], from, to) + (if c.end > c.start then [c] else [])
  }

  function Gap(cursor: int, start: int): seq<Segment> {
    if start - cursor >= MIN_IDLE then [Segment(Idle, cursor, start)] else []
  }

  function Cursor(segs: seq<Segment>, from: int): int {
    if segs == [] then from else segs[|segs| - 1].end
  }

  function Interleaved(segs: seq<Segment>, from: int): seq<Segment>
    decreases |segs|
  {
    if segs == [] then []
    else
      var front, s := segs[..|segs| - 1], segs[|segs| - 1];
      Interleaved(front, from) + Gap(Cursor(front, from), s.start) + [s]
  }

  function Derived(evs: seq<Event>, from: int, to: int): seq<Segment> {
    var clipped := Clipped(CloseAt(ScanOf(evs), to).segs, from, to);
    Interleaved(clipped, from) + Gap(Cursor(clipped, from), to)
  }

  // ---------------------------------------------------------------- the three passes as loops

  method BusySegments(evs: seq<Event>, windowEnd: int) returns (segs: seq<Segment>)
    ensures segs == CloseAt(ScanOf(evs), windowEnd).segs
  {
    segs := [];
    var open: Option<Segment> := None;
    var n := 0;
    while n < |evs|
      invariant n <= |evs| && Scan(segs, open) == ScanOf(evs[..n])
    {
      assert evs[..n + 1][..n] == evs[..n];
      var e := evs[n];
      match e.kind {
        case User =>
          segs := Closing(segs, open, e.at);
          open := Some(Segment(Running, e.at, e.at));
        case PermissionRequest =>
          segs := Closing(segs, open, e.at);
          open := Some(Segment(Waiting, e.at, e.at));
        case ToolUse =>
          if open.Some? && open.value.kind == Waiting {
            segs := Closing(segs, open, e.at);
            open := Some(Segment(Running, e.at, e.at));
          }
        case Text =>
          if open.Some? && open.value.kind == Waiting {
            segs := Closing(segs, open, e.at);
            open := Some(Segment(Running, e.at, e.at));
          }
        case ResultEvent =>
          segs := Closing(segs, open, e.at);
          open := None;
        case Exit =>
          segs := Closing(segs, open, e.at);
          open := None;
        case Other =>
      }
      n := n + 1;
    }
    assert evs[..n] == evs;
    segs := Closing(segs, open, windowEnd);
  }

  method ClipSegments(segs: seq<Segment>, from: int, to: int) returns (out: seq<Segment>)
    ensures out == Clipped(segs, from, to)
  {
    out := [];
    var n := 0;
    while n < |segs|
      invariant n <= |segs| && out == Clipped(segs[..n], from, to)
    {
      assert segs[..n + 1][..n] == segs[..n];
      var start, end := segs[n].start, segs[n].end;
      if start < from { start := from; }
      if end > to { end := to; }
      if end > start { out := out + [Segment(segs[n].kind, start, end)]; }
      n := n + 1;
    }
    assert segs[..n] == segs;
  }

  method FillIdle(segs: seq<Segment>, from: int, to: int) returns (out: seq<Segment>)
    ensures out == Interleaved(segs, from) + Gap(Cursor(segs, from), to)
  {
    out := [];
    var cursor := from;
    var n := 0;
    while n < |segs|
      invariant n <= |segs| && cursor == Cursor(segs[..n], from) && out == Interleaved(segs[..n], from)
    {
      assert segs[..n + 1][..n] == segs[..n];
      if segs[n].start - cursor >= MIN_IDLE { out := out + [Segment(Idle, cursor, segs[n].start)]; }
      out := out + [segs[n]];
      cursor := segs[n].end;
      n := n + 1;
    }
    assert segs[..n] == segs;
    if to - cursor >= MIN_IDLE { out := out + [Segment(Idle, cursor, to)]; }
  }

  method DeriveSegments(evs: seq<Event>, from: int, to: int) returns (out: seq<Segment>)
    ensures out == Derived(evs, from, to)
  {
    var busy := BusySegments(evs, to);
    var clipped := ClipSegments(busy, from, to);
    out := FillIdle(clipped, from, to);
  }

  // ---------------------------------------------------------------- pass one is pointwise right

  function OpenPhase(sc: Scan): Phase {
    if sc.open.Some? then Busy(sc.open.value.kind) else Closed
  }

  ghost predicate ScanCovers(sc: Scan, kind: Kind, t: int) {
    Covers(sc.segs, kind, t) || (sc.open.Some? && sc.open.value.kind == kind && sc.open.value.start <= t)
  }

  /** Everything scanned so far lies at or before `now`, in order. */
  ghost predicate ScanOrdered(sc: Scan, now: int) {
    && Disjoint(sc.segs)
    && (forall k :: 0 <= k < |sc.segs| ==> sc.segs[k].start <= sc.segs[k].end <= now && sc.segs[k].kind != Idle)
    && (sc.open.Some? ==>
          && sc.open.value.start <= now && sc.open.value.kind != Idle
          && forall k :: 0 <= k < |sc.segs| ==> sc.segs[k].end <= sc.open.value.start)
  }

  lemma CoversAppend(segs: seq<Segment>, s: Segment, kind: Kind, t: int)
    ensures Covers(segs + [s], kind, t) <==> Covers(segs, kind, t) || (s.kind == kind && Contains(s, t))
  {
    var more := segs + [s];
    if Covers(segs, kind, t) {
      var k :| 0 <= k < |segs| && segs[k].kind == kind && Contains(segs[k], t);
      assert more[k] == segs[k];
    }
    if s.kind == kind && Contains(s, t) {
      assert more[|segs|] == s;
    }
  }

  lemma CloseCovers(sc: Scan, end: int, kind: Kind, t: int)
    requires t < end
    ensures ScanCovers(CloseAt(sc, end), kind, t) <==> ScanCovers(sc, kind, t)
  {
    if sc.open.Some? { CoversAppend(sc.segs, sc.open.value.(end := end), kind, t); }
  }

  lemma CloseOrdered(sc: Scan, now: int, end: int)
    requires ScanOrdered(sc, now) && now <= end
    ensures ScanOrdered(CloseAt(sc, end), end)
  {}

  lemma StepOrdered(sc: Scan, now: int, e: Event)
    requires ScanOrdered(sc, now) && now <= e.at
    ensures ScanOrdered(ScanStep(sc, e), e.at)
  {
    CloseOrdered(sc, now, e.at);
  }

  /** Before the new event nothing changes; from it on only the open segment counts. */
  lemma StepCovers(sc: Scan, now: int, e: Event, kind: Kind, t: int)
    requires ScanOrdered(sc, now) && now <= e.at
    ensures t < e.at ==> (ScanCovers(ScanStep(sc, e), kind, t) <==> ScanCovers(sc, kind, t))
    ensures t >= e.at ==> (ScanCovers(ScanStep(sc, e), kind, t) <==> OpenPhase(ScanStep(sc, e)) == Busy(kind))
    ensures OpenPhase(ScanStep(sc, e)) == PhaseStep(OpenPhase(sc), e.kind)
  {
    StepOrdered(sc, now, e);
    if t < e.at { CloseCovers(sc, e.at, kind, t); }
  }

  lemma {:induction false} ScanRefines(evs: seq<Event>, now: int, kind: Kind, t: int)
    requires NonDecreasing(evs) && forall i :: 0 <= i < |evs| ==> evs[i].at <= now
    ensures ScanOrdered(ScanOf(evs), now)
    ensures ScanCovers(ScanOf(evs), kind, t) <==> PhaseAt(evs, t) == Busy(kind)
    ensures now <= t ==> PhaseAt(evs, t) == OpenPhase(ScanOf(evs))
    decreases |evs|
  {
    if evs != [] {
      var front, e := evs[..|evs| - 1], evs[|evs| - 1];
      ScanRefines(front, e.at, kind, t);
      ScanRefines(front, e.at, kind, e.at);
      StepOrdered(ScanOf(front), e.at, e);
      StepCovers(ScanOf(front), e.at, e, kind, t);
    }
  }

  // ---------------------------------------------------------------- pass two and three

  lemma {:induction false} ClippedCovers(segs: seq<Segment>, from: int, to: int, kind: Kind, t: int)
    requires from <= t < to
    ensures Covers(Clipped(segs, from, to), kind, t) <==> Covers(segs, kind, t)
    decreases |segs|
  {
    if segs != [] {
      var front, s := segs[..|segs| - 1], segs[|segs| - 1];
      ClippedCovers(front, from, to, kind, t);
      assert segs == front + [s];
      CoversAppend(front, s, kind, t);
      CoversAppend(Clipped(front, from, to), Clip(s, from, to), kind, t);
      assert Clipped(front, from, to) + [] == Clipped(front, from, to);
    }
  }

  /** Non-empty busy segments inside the window, in order. */
  ghost predicate Tidy(segs: seq<Segment>, from: int, to: int) {
    && Disjoint(segs)
    && forall k :: 0 <= k < |segs| ==> from <= segs[k].start < segs[k].end <= to && segs[k].kind != Idle
  }

  lemma {:induction false} ClippedEndsBy(segs: seq<Segment>, from: int, to: int, b: int)
    requires EndsBy(segs, b)
    ensures EndsBy(Clipped(segs, from, to), b)
    decreases |segs|
  {
    if segs != [] { ClippedEndsBy(segs[..|segs| - 1], from, to, b); }
  }

  lemma {:induction false} ClippedTidy(segs: seq<Segment>, from: int, to: int)
    requires Disjoint(segs) && forall k :: 0 <= k < |segs| ==> segs[k].kind != Idle
    ensures Tidy(Clipped(segs, from, to), from, to)
    decreases |segs|
  {
    if segs != [] {
      var front, s := segs[..|segs| - 1], segs[|segs| - 1];
      ClippedTidy(front, from, to);
      ClippedEndsBy(front, from, to, s.start);
      DisjointAppend(Clipped(front, from, to), Clip(s, from, to));
      assert Clipped(front, from, to) + [] == Clipped(front, from, to);
    }
  }

  ghost predicate InWindow(segs: seq<Segment>, from: int, to: int) {
    forall k :: 0 <= k < |segs| ==> from <= segs[k].start < segs[k].end <= to
  }

  ghost predicate EndsBy(segs: seq<Segment>, b: int) {
    forall k :: 0 <= k < |segs| ==> segs[k].end <= b
  }

  lemma DisjointAppend(segs: seq<Segment>, s: Segment)
    requires Disjoint(segs) && EndsBy(segs, s.start)
    ensures Disjoint(segs + [s])
    ensures s.start <= s.end ==> EndsBy(segs + [s], s.end)
  {}

  lemma GapShape(out: seq<Segment>, cursor: int, start: int, from: int)
    requires Disjoint(out) && EndsBy(out, cursor) && InWindow(out, from, cursor) && from <= cursor
    ensures Disjoint(out + Gap(cursor, start))
    ensures cursor <= start ==>
        EndsBy(out + Gap(cursor, start), start) && InWindow(out + Gap(cursor, start), from, start)
    ensures cursor > start ==> Gap(cursor, start) == []
  {
    if start - cursor >= MIN_IDLE { DisjointAppend(out, Segment(Idle, cursor, start)); }
    assert out + [] == out;
  }

  lemma {:induction false} InterleavedShape(segs: seq<Segment>, from: int, to: int)
    requires Tidy(segs, from, to)
    ensures var out := Interleaved(segs, from);
            Disjoint(out) && from <= Cursor(segs, from) && EndsBy(out, Cursor(segs, from)) &&
                InWindow(out, from, Cursor(segs, from))
    decreases |segs|
  {
    if segs != [] {
      var front, s := segs[..|segs| - 1], segs[|segs| - 1];
      InterleavedShape(front, from, to);
      var cursor := Cursor(front, from);
      GapShape(Interleaved(front, from), cursor, s.start, from);
      DisjointAppend(Interleaved(front, from) + Gap(cursor, s.start), s);
    }
  }

  lemma GapCovers(out: seq<Segment>, cursor: int, start: int, kind: Kind, t: int)
    ensures Covers(out + Gap(cursor, start), kind, t) <==>
              Covers(out, kind, t) || (kind == Idle && cursor <= t < start && start - cursor >= MIN_IDLE)
  {
    if start - cursor >= MIN_IDLE {
      CoversAppend(out, Segment(Idle, cursor, start), kind, t);
    } else {
      assert out + [] == out;
    }
  }

  lemma TidyFront(segs: seq<Segment>, from: int, to: int)
    requires Tidy(segs, from, to) && segs != []
    ensures Tidy(segs[..|segs| - 1], from, to)
    ensures from <= Cursor(segs[..|segs| - 1], from) <= segs[|segs| - 1].start < segs[|segs| - 1].end
    ensures segs[|segs| - 1].kind != Idle
  {}

  lemma CoversLast(segs: seq<Segment>, kind: Kind, t: int)
    requires segs != []
    ensures var s := segs[|segs| - 1];
            Covers(segs, kind, t) <==> Covers(segs[..|segs| - 1], kind, t) || (s.kind == kind && Contains(s, t))
  {
    var front, s := segs[..|segs| - 1], segs[|segs| - 1];
    assert segs == front + [s];
    CoversAppend(front, s, kind, t);
  }

  /** Filling in idle time leaves the busy instants as they are. */
  lemma {:induction false} InterleavedBusy(segs: seq<Segment>, from: int, to: int, kind: Kind, t: int)
    requires Tidy(segs, from, to) && kind != Idle
    ensures Covers(Interleaved(segs, from), kind, t) <==> Covers(segs, kind, t)
    ensures Covers(segs, kind, t) ==> t < Cursor(segs, from)
    decreases |segs|
  {
    hide Tidy, Covers;
    if segs == [] {
      NothingCovered(kind, t);
    } else {
      var front, s := segs[..|segs| - 1], segs[|segs| - 1];
      TidyFront(segs, from, to);
      CoversLast(segs, kind, t);
      InterleavedBusy(front, from, to, kind, t);
      GapCovers(Interleaved(front, from), Cursor(front, from), s.start, kind, t);
      CoversAppend(Interleaved(front, from) + Gap(Cursor(front, from), s.start), s, kind, t);
    }
  }

  lemma NothingCovered(kind: Kind, t: int)
    ensures !Covers([], kind, t)
  {}

  /** An idle segment never lies over a busy instant. */
  lemma {:induction false} InterleavedIdle(segs: seq<Segment>, from: int, to: int, kind: Kind, t: int)
    requires Tidy(segs, from, to) && kind != Idle && Covers(Interleaved(segs, from), Idle, t)
    ensures t < Cursor(segs, from) && !Covers(segs, kind, t)
    decreases |segs|
  {
    hide Tidy, Covers;
    NothingCovered(Idle, t);
    if segs != [] {
      var front, s := segs[..|segs| - 1], segs[|segs| - 1];
      TidyFront(segs, from, to);
      CoversLast(segs, kind, t);
      GapCovers(Interleaved(front, from), Cursor(front, from), s.start, Idle, t);
      CoversAppend(Interleaved(front, from) + Gap(Cursor(front, from), s.start), s, Idle, t);
      InterleavedBusy(front, from, to, kind, t);
      if Covers(Interleaved(front, from), Idle, t) {
        InterleavedIdle(front, from, to, kind, t);
      }
    }
  }

  /** No segment touches [a, b). */
  ghost predicate Uncovered(segs: seq<Segment>, a: int, b: int) {
    forall k :: 0 <= k < |segs| ==> segs[k].end <= a || b <= segs[k].start
  }

  lemma UncoveredPart(segs: seq<Segment>, more: seq<Segment>, a: int, b: int)
    requires Uncovered(segs + more, a, b)
    ensures Uncovered(segs, a, b) && Uncovered(more, a, b)
  {
    forall k | 0 <= k < |segs| ensures segs[k].end <= a || b <= segs[k].start {
      assert (segs + more)[k] == segs[k];
    }
    forall k | 0 <= k < |more| ensures more[k].end <= a || b <= more[k].start {
      assert (segs + more)[|segs| + k] == more[k];
    }
  }

  lemma GapIs(cursor: int, start: int)
    ensures start - cursor >= MIN_IDLE ==>
        |Gap(cursor, start)| == 1 && Gap(cursor, start)[0] == Segment(Idle, cursor, start)
  {}

  lemma GapUncovered(cursor: int, start: int, a: int, b: int)
    requires Uncovered(Gap(cursor, start), a, b) && cursor <= a < b <= start
    ensures b - a < MIN_IDLE
  {
    GapIs(cursor, start);
  }

  /** A stretch the filled timeline leaves uncovered is shorter than the idle threshold. */
  lemma {:induction false} UncoveredIsShort(segs: seq<Segment>, from: int, to: int, a: int, b: int)
    requires Tidy(segs, from, to) && from <= a < b <= Cursor(segs, from)
    requires Uncovered(Interleaved(segs, from), a, b)
    ensures b - a < MIN_IDLE
    decreases |segs|
  {
    var front, s := segs[..|segs| - 1], segs[|segs| - 1];
    var cursor := Cursor(front, from);
    var out := Interleaved(front, from);
    UncoveredPart(out + Gap(cursor, s.start), [s], a, b);
    UncoveredPart(out, Gap(cursor, s.start), a, b);
    assert [s][0] == s;
    assert b <= s.start;
    if b <= cursor {
      UncoveredIsShort(front, from, to, a, b);
    } else {
      BusyUncovered(front, from, to, a, b);
      GapUncovered(cursor, s.start, a, b);
    }
  }

  /** A stretch that reaches past the last busy segment starts after it. */
  lemma BusyUncovered(segs: seq<Segment>, from: int, to: int, a: int, b: int)
    requires Tidy(segs, from, to) && from <= a < b && Cursor(segs, from) < b
    requires Uncovered(Interleaved(segs, from), a, b)
    ensures Cursor(segs, from) <= a
  {
    if segs != [] {
      var front, s := segs[..|segs| - 1], segs[|segs| - 1];
      UncoveredPart(Interleaved(front, from) + Gap(Cursor(front, from), s.start), [s], a, b);
      assert [s][0] == s;
    }
  }

  // ---------------------------------------------------------------- main results

  function LastAt(evs: seq<Event>): int {
    if evs == [] then 0 else evs[|evs| - 1].at
  }

  lemma LastIsLast(evs: seq<Event>)
    requires NonDecreasing(evs)
    ensures forall i :: 0 <= i < |evs| ==> evs[i].at <= LastAt(evs)
  {}

  lemma BusyIsTidy(evs: seq<Event>, from: int, to: int)
    requires NonDecreasing(evs)
    ensures Tidy(Clipped(CloseAt(ScanOf(evs), to).segs, from, to), from, to)
  {
    var now := if evs == [] then 0 else evs[|evs| - 1].at;
    ScanRefines(evs, now, Running, 0);
    ClippedTidy(CloseAt(ScanOf(evs), to).segs, from, to);
  }

  /** An instant of the window is in a running (waiting) segment exactly when the events up to it
      leave the session running (waiting); an idle segment only holds instants left closed. */
  lemma TimelineIsPointwise(evs: seq<Event>, from: int, to: int, t: int)
    requires NonDecreasing(evs) && from <= t < to
    ensures Covers(Derived(evs, from, to), Running, t) <==> PhaseAt(evs, t) == Busy(Running)
    ensures Covers(Derived(evs, from, to), Waiting, t) <==> PhaseAt(evs, t) == Busy(Waiting)
    ensures Covers(Derived(evs, from, to), Idle, t) ==> PhaseAt(evs, t) == Closed
  {
    hide Covers, Tidy, NonDecreasing, ScanOrdered, Clipped, Interleaved, Gap, PhaseAt, ScanOf;
    var now := LastAt(evs);
    var busy := CloseAt(ScanOf(evs), to).segs;
    var clipped := Clipped(busy, from, to);
    LastIsLast(evs);
    BusyIsTidy(evs, from, to);
    forall kind | kind != Idle
      ensures Covers(clipped, kind, t) <==> PhaseAt(evs, t) == Busy(kind)
      ensures Covers(Derived(evs, from, to), kind, t) <==> Covers(clipped, kind, t)
      ensures Covers(clipped, kind, t) ==> t < Cursor(clipped, from)
    {
      ScanRefines(evs, now, kind, t);
      CloseCovers(ScanOf(evs), to, kind, t);
      ClippedCovers(busy, from, to, kind, t);
      InterleavedBusy(clipped, from, to, kind, t);
      GapCovers(Interleaved(clipped, from), Cursor(clipped, from), to, kind, t);
    }
    PhaseIsBusy(evs, t);
    GapCovers(Interleaved(clipped, from), Cursor(clipped, from), to, Idle, t);
    if Covers(Interleaved(clipped, from), Idle, t) {
      InterleavedIdle(clipped, from, to, Running, t);
      InterleavedIdle(clipped, from, to, Waiting, t);
    }
  }

  lemma {:induction false} PhaseIsBusy(evs: seq<Event>, t: int)
    ensures PhaseAt(evs, t) != Busy(Idle)
    decreases |evs|
  {
    if evs != [] { PhaseIsBusy(evs[..|evs| - 1], t); }
  }

  /** The segments are non-empty, inside the window, in order and without overlap. */
  lemma TimelineIsOrdered(evs: seq<Event>, from: int, to: int)
    requires NonDecreasing(evs)
    ensures Disjoint(Derived(evs, from, to)) && InWindow(Derived(evs, from, to), from, to)
  {
    var clipped := Clipped(CloseAt(ScanOf(evs), to).segs, from, to);
    BusyIsTidy(evs, from, to);
    InterleavedShape(clipped, from, to);
    GapShape(Interleaved(clipped, from), Cursor(clipped, from), to, from);
    assert Interleaved(clipped, from) + [] == Interleaved(clipped, from);
  }

  /** Whatever stretch of the window no segment touches is shorter than five seconds. */
  lemma TimelineGapsAreShort(evs: seq<Event>, from: int, to: int, a: int, b: int)
    requires NonDecreasing(evs) && from <= a < b <= to
    requires Uncovered(Derived(evs, from, to), a, b)
    ensures b - a < 5 * 1_000_000_000
  {
    var clipped := Clipped(CloseAt(ScanOf(evs), to).segs, from, to);
    var cursor := Cursor(clipped, from);
    BusyIsTidy(evs, from, to);
    UncoveredPart(Interleaved(clipped, from), Gap(cursor, to), a, b);
    if b <= cursor {
      UncoveredIsShort(clipped, from, to, a, b);
    } else {
      BusyUncovered(clipped, from, to, a, b);
      GapUncovered(cursor, to, a, b);
    }
  }

  lemma {:induction false} FilledIsLong(segs: seq<Segment>, from: int, m: nat)
    requires m < |Interleaved(segs, from)| && Interleaved(segs, from)[m].kind == Idle
    requires forall k :: 0 <= k < |segs| ==> segs[k].kind != Idle
    ensures Interleaved(segs, from)[m].end - Interleaved(segs, from)[m].start >= MIN_IDLE
    decreases |segs|
  {
    var front := segs[..|segs| - 1];
    if m < |Interleaved(front, from)| {
      FilledIsLong(front, from, m);
    }
  }

  /** An idle segment is never shorter than that. */
  lemma TimelineIdleIsLong(evs: seq<Event>, from: int, to: int, m: nat)
    requires NonDecreasing(evs)
    requires m < |Derived(evs, from, to)| && Derived(evs, from, to)[m].kind == Idle
    ensures Derived(evs, from, to)[m].end - Derived(evs, from, to)[m].start >= 5 * 1_000_000_000
  {
    var clipped := Clipped(CloseAt(ScanOf(evs), to).segs, from, to);
    BusyIsTidy(evs, from, to);
    if m < |Interleaved(clipped, from)| {
      FilledIsLong(clipped, from, m);
    }
  }

  // ---------------------------------------------------------------- where segments begin and end

  /** The events that end whatever segment is open. */
  predicate Breaks(e: Event) { e.kind.User? || e.kind.PermissionRequest? || e.kind.ResultEvent? || e.kind.Exit? }

  /** No segment goes on across the instant of such an event. */
  ghost predicate Unbroken(segs: seq<Segment>, e: Event) {
    forall k :: 0 <= k < |segs| && segs[k].kind != Idle ==> !(segs[k].start < e.at < segs[k].end)
  }

  ghost predicate SplitAt(evs: seq<Event>, t: int) {
    exists e :: e in evs && e.at == t && (e.kind.User? || e.kind.PermissionRequest?)
  }

  /** Where a busy segment follows one of its own kind without a gap, a user or a permission request came in. */
  ghost predicate SplitByEvents(evs: seq<Event>, segs: seq<Segment>) {
    forall j, k :: 0 <= j < k < |segs| ==> FollowsByEvent(evs, segs[j], segs[k])
  }

  ghost predicate FollowsByEvent(evs: seq<Event>, a: Segment, b: Segment) {
    a.kind == b.kind != Idle && a.start < a.end == b.start < b.end ==> SplitAt(evs, b.start)
  }

  ghost predicate OpenedByEvent(evs: seq<Event>, sc: Scan) {
    sc.open.Some? ==>
      && (sc.open.value.kind == Waiting ==> SplitAt(evs, sc.open.value.start))
      && forall k :: 0 <= k < |sc.segs| ==>
           sc.segs[k].kind == sc.open.value.kind && sc.segs[k].start < sc.segs[k].end == sc.open.value.start ==>
             SplitAt(evs, sc.open.value.start)
  }

  lemma SplitMore(evs: seq<Event>, e: Event, t: int)
    ensures SplitAt(evs, t) ==> SplitAt(evs + [e], t)
  {
    if SplitAt(evs, t) {
      var x :| x in evs && x.at == t && (x.kind.User? || x.kind.PermissionRequest?);
      assert x in evs + [e];
    }
  }

  lemma OpenSplits(evs: seq<Event>, sc: Scan, now: int, e: Event)
    requires ScanOrdered(sc, now) && now <= e.at && SplitByEvents(evs, sc.segs) && OpenedByEvent(evs, sc)
    ensures SplitByEvents(evs + [e], ScanStep(sc, e).segs) && OpenedByEvent(evs + [e], ScanStep(sc, e))
  {
    var sc' := ScanStep(sc, e);
    assert e in evs + [e];
    forall t ensures SplitAt(evs, t) ==> SplitAt(evs + [e], t) {
      SplitMore(evs, e, t);
    }
    hide SplitAt;
    forall j, k | 0 <= j < k < |sc'.segs| ensures FollowsByEvent(evs + [e], sc'.segs[j], sc'.segs[k]) {
      if k < |sc.segs| {
        assert FollowsByEvent(evs, sc.segs[j], sc.segs[k]);
      }
    }
    if e.kind.User? || e.kind.PermissionRequest? {
      SplitsHere(evs, e);
    }
  }

  lemma SplitsHere(evs: seq<Event>, e: Event)
    requires e.kind.User? || e.kind.PermissionRequest?
    ensures SplitAt(evs + [e], e.at)
  {
    assert e in evs + [e];
  }

  lemma {:induction false} ScanSplits(evs: seq<Event>, now: int)
    requires NonDecreasing(evs) && forall i :: 0 <= i < |evs| ==> evs[i].at <= now
    ensures SplitByEvents(evs, ScanOf(evs).segs) && OpenedByEvent(evs, ScanOf(evs))
    decreases |evs|
  {
    if evs != [] {
      var front, e := evs[..|evs| - 1], evs[|evs| - 1];
      ScanSplits(front, e.at);
      ScanRefines(front, e.at, Running, 0);
      OpenSplits(front, ScanOf(front), e.at, e);
      assert front + [e] == evs;
    }
  }

  /** No closed segment goes on across a breaking event, and the open one begins after them all. */
  ghost predicate BrokenBy(evs: seq<Event>, sc: Scan) {
    forall e :: e in evs && Breaks(e) ==> Unbroken(sc.segs, e) && (sc.open.Some? ==> e.at <= sc.open.value.start)
  }

  lemma StepBreaks(evs: seq<Event>, sc: Scan, now: int, e: Event)
    requires ScanOrdered(sc, now) && now <= e.at && BrokenBy(evs, sc)
    requires forall x :: x in evs ==> x.at <= now
    ensures BrokenBy(evs + [e], ScanStep(sc, e))
  {
    var sc' := ScanStep(sc, e);
    forall x | x in evs + [e] && Breaks(x)
      ensures Unbroken(sc'.segs, x) && (sc'.open.Some? ==> x.at <= sc'.open.value.start)
    {
      assert x in evs ==> Unbroken(sc.segs, x);
    }
  }

  lemma {:induction false} ScanBreaks(evs: seq<Event>, now: int)
    requires NonDecreasing(evs) && forall i :: 0 <= i < |evs| ==> evs[i].at <= now
    ensures BrokenBy(evs, ScanOf(evs))
    decreases |evs|
  {
    if evs != [] {
      var front, e := evs[..|evs| - 1], evs[|evs| - 1];
      ScanBreaks(front, e.at);
      ScanRefines(front, e.at, Running, 0);
      StepBreaks(front, ScanOf(front), e.at, e);
      assert front + [e] == evs;
    }
  }

  lemma ClosedSplits(evs: seq<Event>, to: int)
    requires NonDecreasing(evs)
    ensures SplitByEvents(evs, CloseAt(ScanOf(evs), to).segs)
    ensures forall e :: e in evs && Breaks(e) ==> Unbroken(CloseAt(ScanOf(evs), to).segs, e)
  {
    var sc := ScanOf(evs);
    LastIsLast(evs);
    ScanSplits(evs, LastAt(evs));
    ScanBreaks(evs, LastAt(evs));
    hide SplitAt, ScanOf;
    var segs := CloseAt(sc, to).segs;
    forall j, k | 0 <= j < k < |segs| ensures FollowsByEvent(evs, segs[j], segs[k]) {
      if k < |sc.segs| {
        assert FollowsByEvent(evs, sc.segs[j], sc.segs[k]);
      }
    }
    forall e | e in evs && Breaks(e) ensures Unbroken(segs, e) {
      assert Unbroken(sc.segs, e);
    }
  }

  /** A clipped segment is a part of one there was. */
  lemma {:induction false} ClippedFrom(segs: seq<Segment>, from: int, to: int, m: nat) returns (j: nat)
    requires m < |Clipped(segs, from, to)|
    ensures j < |segs| && Clipped(segs, from, to)[m] == Clip(segs[j], from, to)
    decreases |segs|
  {
    var front := segs[..|segs| - 1];
    if m < |Clipped(front, from, to)| {
      j := ClippedFrom(front, from, to, m);
    } else {
      j := |segs| - 1;
    }
  }

  lemma {:induction false} ClippedSplits(evs: seq<Event>, segs: seq<Segment>, from: int, to: int)
    requires SplitByEvents(evs, segs)
    ensures SplitByEvents(evs, Clipped(segs, from, to))
    decreases |segs|
  {
    hide SplitAt;
    if segs != [] {
      var front, s := segs[..|segs| - 1], segs[|segs| - 1];
      var out, before := Clipped(segs, from, to), Clipped(front, from, to);
      assert forall j, k :: 0 <= j < k < |front| ==> FollowsByEvent(evs, segs[j], segs[k]);
      ClippedSplits(evs, front, from, to);
      forall j, k | 0 <= j < k < |out| ensures FollowsByEvent(evs, out[j], out[k]) {
        if k < |before| {
          assert FollowsByEvent(evs, before[j], before[k]);
        } else {
          var i := ClippedFrom(front, from, to, j);
          assert FollowsByEvent(evs, segs[i], segs[|segs| - 1]);
        }
      }
    }
  }

  lemma ClippedUnbroken(segs: seq<Segment>, from: int, to: int, e: Event)
    requires Unbroken(segs, e)
    ensures Unbroken(Clipped(segs, from, to), e)
  {
    var out := Clipped(segs, from, to);
    forall m | 0 <= m < |out| && out[m].kind != Idle ensures !(out[m].start < e.at < out[m].end) {
      var j := ClippedFrom(segs, from, to, m);
    }
  }

  /** What is busy after filling in was there before. */
  lemma {:induction false} FilledFrom(segs: seq<Segment>, from: int, m: nat) returns (j: nat)
    requires m < |Interleaved(segs, from)| && Interleaved(segs, from)[m].kind != Idle
    ensures j < |segs| && Interleaved(segs, from)[m] == segs[j]
    decreases |segs|
  {
    var front := segs[..|segs| - 1];
    if m < |Interleaved(front, from)| {
      j := FilledFrom(front, from, m);
    } else {
      j := |segs| - 1;
    }
  }

  lemma {:induction false} FilledSplits(evs: seq<Event>, segs: seq<Segment>, from: int)
    requires SplitByEvents(evs, segs)
    ensures SplitByEvents(evs, Interleaved(segs, from))
    decreases |segs|
  {
    hide SplitAt;
    if segs != [] {
      var front, s := segs[..|segs| - 1], segs[|segs| - 1];
      var out, before := Interleaved(segs, from), Interleaved(front, from);
      assert forall j, k :: 0 <= j < k < |front| ==> FollowsByEvent(evs, segs[j], segs[k]);
      FilledSplits(evs, front, from);
      forall j, k | 0 <= j < k < |out| ensures FollowsByEvent(evs, out[j], out[k]) {
        if k < |before| {
          assert FollowsByEvent(evs, before[j], before[k]);
        } else if k == |out| - 1 && out[j].kind != Idle && j < |before| {
          var i := FilledFrom(front, from, j);
          assert FollowsByEvent(evs, segs[i], segs[|segs| - 1]);
        }
      }
    }
  }

  /** The busy segments break exactly at the events that break them: none goes on across a user's or an agent's end of
      turn, and where one follows another of its kind at once, a user or a permission request came in. */
  lemma TimelineBreaksAtEvents(evs: seq<Event>, from: int, to: int)
    requires NonDecreasing(evs)
    ensures var out := Derived(evs, from, to);
            && (forall e :: e in evs && Breaks(e) ==> Unbroken(out, e))
            && (forall j, k :: 0 <= j < k < |out| ==>
                  out[j].kind == out[k].kind != Idle && out[j].end == out[k].start ==> SplitAt(evs, out[k].start))
  {
    hide SplitAt, Interleaved, Clipped, ScanOf, NonDecreasing;
    var busy, out := CloseAt(ScanOf(evs), to).segs, Derived(evs, from, to);
    var clipped := Clipped(busy, from, to);
    ClosedSplits(evs, to);
    ClippedSplits(evs, busy, from, to);
    FilledSplits(evs, clipped, from);
    TimelineIsOrdered(evs, from, to);
    forall j, k | 0 <= j < k < |out| && out[j].kind == out[k].kind != Idle && out[j].end == out[k].start
      ensures SplitAt(evs, out[k].start)
    {
      assert FollowsByEvent(evs, Interleaved(clipped, from)[j], Interleaved(clipped, from)[k]);
    }
    forall e | e in evs && Breaks(e) ensures Unbroken(out, e) {
      ClippedUnbroken(busy, from, to, e);
      FilledUnbroken(clipped, from, e);
    }
  }

  lemma FilledUnbroken(segs: seq<Segment>, from: int, e: Event)
    requires Unbroken(segs, e)
    ensures Unbroken(Interleaved(segs, from), e)
  {
    var out := Interleaved(segs, from);
    forall m | 0 <= m < |out| && out[m].kind != Idle ensures !(out[m].start < e.at < out[m].end) {
      var j := FilledFrom(segs, from, m);
    }
  }
}
