/** The span writer: one logical stream cut into segments of at most `maxBytes`
    bytes. Each segment is a stream from the factory wrapped by
    `NewLimitedWriter(_, WithMaxBytes(maxBytes))`; when a write does not fit in the
    current segment, the next segment is opened and the write is retried once. */
module Span {
  import opened Errors
  import opened Stack
  import opened Limited

  /** What the segment factory returns for a file id. */
  datatype Opened = Opened(behaviour: Behaviour) | OpenFailed(err: Err)

  /** The constructor's arguments: the file-id pattern as a function of the sequence
      number, the per-segment quota and the factory. */
  datatype SpanConfig = SpanConfig(id: nat -> string, maxBytes: int, factory: string -> Opened)

  /** A segment: the sequence number it was opened with, its raw stream's behaviour
      and the state of its decorated stream. */
  datatype Segment = Segment(seqNo: nat, behaviour: Behaviour, world: World)

  /** The span writer's state. `retired` holds the segments it no longer refers to,
      oldest first; `factoryCalls` records every file id passed to the factory. */
  datatype SpanView = SpanView(
    fileSequence: nat,
    retired: seq<Segment>,
    current: Option<Segment>,
    lastErr: Option<Err>,
    factoryCalls: seq<string>)

  datatype SpanOutcome = SpanOutcome(view: SpanView, n: nat, err: Option<Err>)
  datatype SpanClosing = SpanClosing(view: SpanView, err: Option<Err>)

  /** The layers of every segment: the synced latch outside the quota. */
  function SegmentLayers(maxBytes: int): (layers: seq<Layer>)
    ensures layers == [Synced, Quota(maxBytes)]
  {
    assert [WithMaxBytes(maxBytes)][..0] == [];
    assert Folded([WithMaxBytes(maxBytes)], []) == [Quota(maxBytes)] + Folded([], []);
    LimitedLayers([WithMaxBytes(maxBytes)], [])
  }

  lemma SegmentShape(maxBytes: int)
    ensures FreshWorld(SegmentLayers(maxBytes)).cells == [Latch(false), Counter(0)]
  {
  }

  /** What the span writer relies on between calls: the current segment, if any, has
      segment-shaped state, and a missing segment always comes with an error. */
  predicate Ready(c: SpanConfig, v: SpanView) {
    && (v.current.Some? ==> WellFormed(SegmentLayers(c.maxBytes), v.current.value.world.cells))
    && (v.current.None? ==> v.lastErr.Some?)
  }

  /** Every segment opened so far, oldest first. */
  function Segments(v: SpanView): seq<Segment> {
    v.retired + (if v.current.Some? then [v.current.value] else [])
  }

  /** `reInitWriter`: ask the factory for the segment with the next sequence number;
      on success wrap it with the quota, on failure keep the error. Either way the
      sequence number advances and the previous segment is let go. */
  function ReInit(c: SpanConfig, v: SpanView): (r: SpanView)
    ensures Ready(c, r)
  {
    var fileId := c.id(v.fileSequence);
    var calls := v.factoryCalls + [fileId];
    match c.factory(fileId)
    case OpenFailed(e) =>
      SpanView(v.fileSequence + 1, Segments(v), None, Some(e), calls)
    case Opened(b) =>
      var segment := Segment(v.fileSequence, b, FreshWorld(SegmentLayers(c.maxBytes)));
      SpanView(v.fileSequence + 1, Segments(v), Some(segment), None, calls)
  }

  /** The state right after `NewSpanWriter`: one factory call has been made. */
  function NewSpan(c: SpanConfig): (r: SpanView)
    ensures Ready(c, r)
  {
    ReInit(c, SpanView(0, [], None, None, []))
  }

  /** `Write(p)` on the current segment's decorated stream. */
  function WriteSegment(c: SpanConfig, s: Segment, p: seq<byte>): Outcome
    requires WellFormed(SegmentLayers(c.maxBytes), s.world.cells)
  {
    WriteFrom(SegmentLayers(c.maxBytes), s.behaviour, 0, s.world, p)
  }

  /** The span writer's `Write(p)`. */
  function SpanWrite(c: SpanConfig, v: SpanView, p: seq<byte>): (r: SpanOutcome)
    requires Ready(c, v)
    ensures Ready(c, r.view)
  {
    var v1 := if v.current.None? then ReInit(c, v) else v;
    if v1.lastErr.Some? then SpanOutcome(v1, 0, v1.lastErr)
    else
      var segment := v1.current.value;
      var o := WriteSegment(c, segment, p);
      var v2 := v1.(current := Some(segment.(world := o.world)));
      if o.err != Some(TooLargeWrite) then SpanOutcome(v2, o.n, v2.lastErr)
      else if |p| > c.maxBytes then SpanOutcome(v2, o.n, o.err)
      else Rotate(c, v2, p)
  }

  /** The rest of `Write` after the current segment refused `p`: open the next
      segment and retry once there, keeping the retry's error. */
  function Rotate(c: SpanConfig, v: SpanView, p: seq<byte>): (r: SpanOutcome)
    ensures Ready(c, r.view)
  {
    var v1 := ReInit(c, v);
    if v1.lastErr.Some? then SpanOutcome(v1, 0, v1.lastErr)
    else
      var next := v1.current.value;
      var retry := WriteSegment(c, next, p);
      SpanOutcome(v1.(current := Some(next.(world := retry.world)), lastErr := retry.err), retry.n, retry.err)
  }

  /** The span writer's `Close()`; it needs a current segment. */
  function SpanClose(c: SpanConfig, v: SpanView): (r: SpanClosing)
    requires Ready(c, v) && v.current.Some?
    ensures Ready(c, r.view)
  {
    var segment := v.current.value;
    var k := CloseFrom(SegmentLayers(c.maxBytes), segment.behaviour, 0, segment.world);
    var v1 := v.(current := Some(segment.(world := k.world)));
    if k.err.Some? then SpanClosing(v1, k.err)
    else SpanClosing(v1.(lastErr := Some(AlreadyClosed)), None)
  }

  /** Everything the segments hold, in segment order. */
  function Concat(segments: seq<Segment>): seq<byte> {
    if segments == [] then []
    else Concat(segments[..|segments| - 1]) + segments[|segments| - 1].world.sink.contents
  }

  function Contents(v: SpanView): seq<byte> {
    Concat(Segments(v))
  }

  // ---------------------------------------------------------------------------
  // The invariant the span writer keeps

  /** A well-kept segment: opened by the factory for its own file id, segment-shaped,
      holding exactly as many bytes as its quota counter says, and no more than
      `maxBytes` (an empty one when `maxBytes` is negative). */
  ghost predicate SegmentOk(c: SpanConfig, s: Segment, bound: nat) {
    && s.seqNo < bound
    && c.factory(c.id(s.seqNo)) == Opened(s.behaviour)
    && WellFormed(SegmentLayers(c.maxBytes), s.world.cells)
    && WithinQuota(SegmentLayers(c.maxBytes), s.world.cells)
    && |s.world.sink.contents| == s.world.cells[1].bytesWritten
  }

  ghost predicate Consistent(c: SpanConfig, v: SpanView) {
    && Ready(c, v)
    && |v.factoryCalls| == v.fileSequence
    && (forall k :: 0 <= k < v.fileSequence ==> v.factoryCalls[k] == c.id(k))
    && (forall k :: 0 <= k < |Segments(v)| ==> SegmentOk(c, Segments(v)[k], v.fileSequence))
    && (forall k, l :: 0 <= k < l < |Segments(v)| ==> Segments(v)[k].seqNo < Segments(v)[l].seqNo)
  }

  /** Writing to or closing a segment keeps it well-kept. */
  lemma WriteKeepsSegment(c: SpanConfig, s: Segment, bound: nat, p: seq<byte>)
    requires SegmentOk(c, s, bound)
    ensures SegmentOk(c, s.(world := WriteSegment(c, s, p).world), bound)
  {
    var layers := SegmentLayers(c.maxBytes);
    SegmentShape(c.maxBytes);
    WriteKeepsQuota(layers, s.behaviour, 0, s.world, p);
    if !s.world.cells[0].isClosed {
      if s.world.cells[1].bytesWritten + |p| > c.maxBytes {
        WriteOverQuota(layers, s.behaviour, 1, s.world, p);
      } else {
        WriteWithinQuota(layers, s.behaviour, 1, s.world, p);
      }
    }
  }

  lemma CloseKeepsSegment(c: SpanConfig, s: Segment, bound: nat)
    requires SegmentOk(c, s, bound)
    ensures SegmentOk(c, s.(world := CloseFrom(SegmentLayers(c.maxBytes), s.behaviour, 0, s.world).world), bound)
  {
    CloseKeepsQuota(SegmentLayers(c.maxBytes), s.behaviour, 0, s.world);
  }

  lemma ReInitKeepsConsistent(c: SpanConfig, v: SpanView)
    requires Consistent(c, v)
    ensures Consistent(c, ReInit(c, v))
  {
    var r := ReInit(c, v);
    SegmentShape(c.maxBytes);
    FreshWithinQuota(SegmentLayers(c.maxBytes));
    assert Segments(r) == Segments(v) + (if r.current.Some? then [r.current.value] else []);
  }

  lemma NewSpanConsistent(c: SpanConfig)
    ensures Consistent(c, NewSpan(c))
  {
    SegmentShape(c.maxBytes);
    FreshWithinQuota(SegmentLayers(c.maxBytes));
  }

  /** Replacing the current segment's state by a well-kept one keeps the invariant. */
  lemma UpdateCurrentKeepsConsistent(c: SpanConfig, v: SpanView, s: Segment)
    requires Consistent(c, v) && v.current.Some?
    requires s.seqNo == v.current.value.seqNo && SegmentOk(c, s, v.fileSequence)
    ensures Consistent(c, v.(current := Some(s)))
  {
    var u := v.(current := Some(s));
    assert Segments(u) == v.retired + [s];
    assert Segments(v) == v.retired + [v.current.value];
    assert forall k :: 0 <= k < |Segments(u)| ==> Segments(u)[k].seqNo == Segments(v)[k].seqNo;
    forall k | 0 <= k < |Segments(u)|
      ensures SegmentOk(c, Segments(u)[k], u.fileSequence)
    {
      if k < |v.retired| {
        assert Segments(u)[k] == Segments(v)[k];
      }
    }
  }

  /** `Write` keeps the invariant. */
  lemma SpanWriteKeepsConsistent(c: SpanConfig, v: SpanView, p: seq<byte>)
    requires Consistent(c, v)
    ensures Consistent(c, SpanWrite(c, v, p).view)
  {
    var v1 := if v.current.None? then ReInit(c, v) else v;
    if v.current.None? {
      ReInitKeepsConsistent(c, v);
    }
    if v1.lastErr.None? {
      var segment := v1.current.value;
      assert segment == Segments(v1)[|Segments(v1)| - 1];
      var o := WriteSegment(c, segment, p);
      WriteKeepsSegment(c, segment, v1.fileSequence, p);
      var v2 := v1.(current := Some(segment.(world := o.world)));
      UpdateCurrentKeepsConsistent(c, v1, segment.(world := o.world));
      if o.err == Some(TooLargeWrite) && |p| <= c.maxBytes {
        RotateKeepsConsistent(c, v2, p);
      }
    }
  }

  lemma RotateKeepsConsistent(c: SpanConfig, v: SpanView, p: seq<byte>)
    requires Consistent(c, v)
    ensures Consistent(c, Rotate(c, v, p).view)
  {
    var v1 := ReInit(c, v);
    ReInitKeepsConsistent(c, v);
    if v1.lastErr.None? {
      var next := v1.current.value;
      assert next == Segments(v1)[|Segments(v1)| - 1];
      WriteKeepsSegment(c, next, v1.fileSequence, p);
      UpdateCurrentKeepsConsistent(c, v1, next.(world := WriteSegment(c, next, p).world));
      assert Segments(Rotate(c, v, p).view) == Segments(v1.(current := Some(next.(world := WriteSegment(c, next, p).world))));
    }
  }

  /** `Close` keeps the invariant. */
  lemma SpanCloseKeepsConsistent(c: SpanConfig, v: SpanView)
    requires Consistent(c, v) && v.current.Some?
    ensures Consistent(c, SpanClose(c, v).view)
  {
    var segment := v.current.value;
    assert segment == Segments(v)[|Segments(v)| - 1];
    CloseKeepsSegment(c, segment, v.fileSequence);
    var k := CloseFrom(SegmentLayers(c.maxBytes), segment.behaviour, 0, segment.world);
    UpdateCurrentKeepsConsistent(c, v, segment.(world := k.world));
    assert Segments(SpanClose(c, v).view) == Segments(v.(current := Some(segment.(world := k.world))));
  }

  // ---------------------------------------------------------------------------
  // What the invariant gives

  /** No segment ever holds more than `maxBytes` bytes. */
  lemma SegmentsWithinQuota(c: SpanConfig, v: SpanView)
    requires Consistent(c, v)
    ensures forall k :: 0 <= k < |Segments(v)| ==>
      |Segments(v)[k].world.sink.contents| <= if c.maxBytes < 0 then 0 else c.maxBytes
  {
    SegmentShape(c.maxBytes);
    forall k | 0 <= k < |Segments(v)|
      ensures |Segments(v)[k].world.sink.contents| <= if c.maxBytes < 0 then 0 else c.maxBytes
    {
      assert SegmentOk(c, Segments(v)[k], v.fileSequence);
      assert SegmentLayers(c.maxBytes)[1] == Quota(c.maxBytes);
    }
  }

  // ---------------------------------------------------------------------------
  // The bytes are kept, in order

  lemma ConcatAppend(segments: seq<Segment>, s: Segment)
    ensures Concat(segments + [s]) == Concat(segments) + s.world.sink.contents
  {
    assert (segments + [s])[..|segments|] == segments;
  }

  /** Opening a segment (or failing to) moves no byte. */
  lemma ReInitKeepsContents(c: SpanConfig, v: SpanView)
    ensures Contents(ReInit(c, v)) == Contents(v)
  {
    var r := ReInit(c, v);
    if r.current.Some? {
      assert Segments(r) == Segments(v) + [r.current.value];
      ConcatAppend(Segments(v), r.current.value);
    } else {
      assert Segments(r) == Segments(v);
    }
  }

  lemma UpdateCurrentContents(v: SpanView, s: Segment)
    requires v.current.Some?
    ensures Contents(v.(current := Some(s))) ==
      Concat(v.retired) + s.world.sink.contents
    ensures Contents(v) == Concat(v.retired) + v.current.value.world.sink.contents
  {
    ConcatAppend(v.retired, s);
    ConcatAppend(v.retired, v.current.value);
  }

  /** No stream the factory hands out reports `ErrTooLargeWrite` by itself; the
      only source of that error is then the segment's own quota. */
  ghost predicate QuotaOnlyRefuses(c: SpanConfig) {
    forall fileId: string, count: nat, q: seq<byte> ::
      c.factory(fileId).Opened? ==> c.factory(fileId).behaviour.onWrite(count, q).err != Some(TooLargeWrite)
  }

  /** When the quota is the only source of `ErrTooLargeWrite`, a segment write that
      fails with it wrote nothing. */
  lemma RefusedWriteIsEmpty(c: SpanConfig, s: Segment, bound: nat, p: seq<byte>)
    requires SegmentOk(c, s, bound) && QuotaOnlyRefuses(c)
    requires WriteSegment(c, s, p).err == Some(TooLargeWrite)
    ensures WriteSegment(c, s, p).n == 0
    ensures WriteSegment(c, s, p).world.sink.contents == s.world.sink.contents
  {
    var layers := SegmentLayers(c.maxBytes);
    SegmentShape(c.maxBytes);
    if s.world.cells[1].bytesWritten + |p| <= c.maxBytes {
      WriteWithinQuota(layers, s.behaviour, 1, s.world, p);
      assert c.factory(c.id(s.seqNo)).behaviour.onWrite(s.world.sink.writes, p).err != Some(TooLargeWrite);
    } else {
      WriteOverQuota(layers, s.behaviour, 1, s.world, p);
    }
  }

  /** What the segments hold together grows by exactly the `n` bytes each `Write`
      reports, so their concatenation is the concatenation of what was reported
      written. It needs the quota to be the only source of `ErrTooLargeWrite`: a
      stream that reports some bytes written together with that error has them
      written again into the next segment. */
  lemma SpanWriteAppends(c: SpanConfig, v: SpanView, p: seq<byte>)
    requires Consistent(c, v) && QuotaOnlyRefuses(c)
    ensures var r := SpanWrite(c, v, p);
      r.n <= |p| && Contents(r.view) == Contents(v) + p[..r.n]
  {
    if v.current.None? {
      var v1 := ReInit(c, v);
      ReInitKeepsContents(c, v);
      ReInitKeepsConsistent(c, v);
      if v1.lastErr.None? {
        assert SpanWrite(c, v, p) == SpanWrite(c, v1, p);
        AttemptAppends(c, v1, p);
      }
    } else if v.lastErr.None? {
      AttemptAppends(c, v, p);
    }
  }

  /** `SpanWriteAppends` once a segment is open and no error is latched. */
  lemma AttemptAppends(c: SpanConfig, v: SpanView, p: seq<byte>)
    requires Consistent(c, v) && QuotaOnlyRefuses(c) && v.current.Some? && v.lastErr.None?
    ensures var r := SpanWrite(c, v, p);
      r.n <= |p| && Contents(r.view) == Contents(v) + p[..r.n]
  {
    var segment := v.current.value;
    assert segment == Segments(v)[|Segments(v)| - 1];
    var o := WriteSegment(c, segment, p);
    var v2 := v.(current := Some(segment.(world := o.world)));
    UpdateCurrentContents(v, segment.(world := o.world));
    if o.err == Some(TooLargeWrite) {
      RefusedWriteIsEmpty(c, segment, v.fileSequence, p);
      if |p| <= c.maxBytes {
        RotateAppends(c, v2, p);
      }
    }
  }

  lemma RotateAppends(c: SpanConfig, v: SpanView, p: seq<byte>)
    ensures var r := Rotate(c, v, p);
      r.n <= |p| && Contents(r.view) == Contents(v) + p[..r.n]
  {
    var v1 := ReInit(c, v);
    ReInitKeepsContents(c, v);
    if v1.lastErr.None? {
      var next := v1.current.value;
      UpdateCurrentContents(v1, next.(world := WriteSegment(c, next, p).world));
      UpdateCurrentContents(v1, next);
      assert Segments(Rotate(c, v, p).view) == Segments(v1.(current := Some(next.(world := WriteSegment(c, next, p).world))));
    }
  }

  /** `Close` moves no byte. */
  lemma SpanCloseKeepsContents(c: SpanConfig, v: SpanView)
    requires Ready(c, v) && v.current.Some?
    ensures Contents(SpanClose(c, v).view) == Contents(v)
  {
    var segment := v.current.value;
    var k := CloseFrom(SegmentLayers(c.maxBytes), segment.behaviour, 0, segment.world);
    UpdateCurrentContents(v, segment.(world := k.world));
  }

  // ---------------------------------------------------------------------------
  // One segment, call by call

  /** Everything a write to a segment can do: refuse on a closed latch; close the
      raw stream and refuse when the quota has no room; or pass the write to the raw
      stream and count what it took. */
  lemma SegmentWrite(c: SpanConfig, s: Segment, p: seq<byte>)
    requires WellFormed(SegmentLayers(c.maxBytes), s.world.cells)
    ensures var w := s.world; var o := WriteSegment(c, s, p);
      && (w.cells[0].isClosed ==> o == Outcome(w, 0, Some(AlreadyClosed)))
      && (!w.cells[0].isClosed && w.cells[1].bytesWritten + |p| > c.maxBytes ==>
            var e := s.behaviour.onClose(w.sink.closes);
            o == Outcome(w.(sink := w.sink.(closes := w.sink.closes + 1)), 0,
                         Some(if e.Some? then Wrapped(e.value) else TooLargeWrite)))
      && (!w.cells[0].isClosed && w.cells[1].bytesWritten + |p| <= c.maxBytes ==>
            var x := s.behaviour.onWrite(w.sink.writes, p);
            var n := if x.n <= |p| then x.n else |p|;
            o == Outcome(w.(cells := [Latch(false), Counter(w.cells[1].bytesWritten + n)],
                            sink := Sink(w.sink.contents + p[..n], w.sink.writes + 1, w.sink.closes)),
                         n, x.err))
  {
    var w := s.world;
    var layers := SegmentLayers(c.maxBytes);
    if !w.cells[0].isClosed {
      assert WriteSegment(c, s, p) == WriteFrom(layers, s.behaviour, 1, w, p);
      if w.cells[1].bytesWritten + |p| <= c.maxBytes {
        var x := s.behaviour.onWrite(w.sink.writes, p);
        var n := if x.n <= |p| then x.n else |p|;
        assert WriteFrom(layers, s.behaviour, 2, w, p) ==
          Outcome(w.(sink := Sink(w.sink.contents + p[..n], w.sink.writes + 1, w.sink.closes)), n, x.err);
        assert w.cells[1 := Counter(w.cells[1].bytesWritten + n)] == [Latch(false), Counter(w.cells[1].bytesWritten + n)];
      } else {
        assert CloseFrom(layers, s.behaviour, 2, w) ==
          Closing(w.(sink := w.sink.(closes := w.sink.closes + 1)), s.behaviour.onClose(w.sink.closes));
      }
    }
  }

  /** Everything a close of a segment can do: refuse on a closed latch, or set the
      latch and close the raw stream, returning its error. */
  lemma SegmentClose(c: SpanConfig, s: Segment)
    requires WellFormed(SegmentLayers(c.maxBytes), s.world.cells)
    ensures var w := s.world; var k := CloseFrom(SegmentLayers(c.maxBytes), s.behaviour, 0, w);
      && (w.cells[0].isClosed ==> k == Closing(w, Some(AlreadyClosed)))
      && (!w.cells[0].isClosed ==>
            k == Closing(w.(cells := [Latch(true), w.cells[1]], sink := w.sink.(closes := w.sink.closes + 1)),
                         s.behaviour.onClose(w.sink.closes)))
  {
    var w := s.world;
    var layers := SegmentLayers(c.maxBytes);
    if !w.cells[0].isClosed {
      var latched := w.(cells := w.cells[0 := Latch(true)]);
      assert w.cells[0 := Latch(true)] == [Latch(true), w.cells[1]];
      assert CloseFrom(layers, s.behaviour, 0, w) == CloseFrom(layers, s.behaviour, 1, latched);
      assert CloseFrom(layers, s.behaviour, 1, latched) == CloseFrom(layers, s.behaviour, 2, latched);
    }
  }

  // ---------------------------------------------------------------------------
  // The span writer, case by case

  /** `NewSpanWriter` calls the factory once, for `id(0)`; on success the first
      segment is fresh and no error is held, on failure the error is held and there
      is no segment. */
  lemma NewSpanOpensFirstSegment(c: SpanConfig)
    ensures var v := NewSpan(c);
      && v.factoryCalls == [c.id(0)] && v.fileSequence == 1 && v.retired == []
      && (c.factory(c.id(0)).Opened? ==>
            v.current == Some(Segment(0, c.factory(c.id(0)).behaviour, FreshWorld(SegmentLayers(c.maxBytes))))
            && v.lastErr.None?)
      && (c.factory(c.id(0)).OpenFailed? ==>
            v.current.None? && v.lastErr == Some(c.factory(c.id(0)).err))
  {
  }

  /** While an error is held and a segment is present, `Write` returns that error
      with count 0 and changes nothing. */
  lemma HeldErrorReturned(c: SpanConfig, v: SpanView, p: seq<byte>)
    requires Ready(c, v) && v.current.Some? && v.lastErr.Some?
    ensures SpanWrite(c, v, p) == SpanOutcome(v, 0, v.lastErr)
  {
  }

  /** With no segment (the last open failed), `Write` first asks the factory again,
      for the next sequence number, and then behaves as on the reopened writer. */
  lemma MissingSegmentReopens(c: SpanConfig, v: SpanView, p: seq<byte>)
    requires Ready(c, v) && v.current.None?
    ensures var v1 := ReInit(c, v); var got := c.factory(c.id(v.fileSequence));
      && v1.factoryCalls == v.factoryCalls + [c.id(v.fileSequence)]
      && v1.fileSequence == v.fileSequence + 1
      && (got.OpenFailed? ==> SpanWrite(c, v, p) == SpanOutcome(v1, 0, Some(got.err)))
      && (got.Opened? ==> SpanWrite(c, v, p) == SpanWrite(c, v1, p))
  {
  }

  /** A write the current segment has room for goes to that segment alone. Its count
      is returned and the raw stream's error, unless it is `ErrTooLargeWrite`, is
      dropped: the result's error is nil. */
  lemma FittingWrite(c: SpanConfig, v: SpanView, p: seq<byte>)
    requires Ready(c, v) && v.current.Some? && v.lastErr.None?
    requires !v.current.value.world.cells[0].isClosed
    requires v.current.value.world.cells[1].bytesWritten + |p| <= c.maxBytes
    requires v.current.value.behaviour.onWrite(v.current.value.world.sink.writes, p).err != Some(TooLargeWrite)
    ensures var r := SpanWrite(c, v, p); var s := v.current.value;
      var x := s.behaviour.onWrite(s.world.sink.writes, p);
      && r.n == (if x.n <= |p| then x.n else |p|) && r.err.None?
      && r.view.fileSequence == v.fileSequence && r.view.factoryCalls == v.factoryCalls
      && r.view.retired == v.retired && r.view.lastErr.None?
      && r.view.current.Some? && r.view.current.value.seqNo == s.seqNo
      && r.view.current.value.world.sink.contents == s.world.sink.contents + p[..r.n]
      && r.view.current.value.world.cells == [Latch(false), Counter(s.world.cells[1].bytesWritten + r.n)]
  {
    SegmentWrite(c, v.current.value, p);
  }

  /** A write longer than `maxBytes` that reaches an open segment can never fit:
      the segment's raw stream is closed, no segment is opened, and
      `ErrTooLargeWrite` comes back with count 0. */
  lemma PermanentOverflow(c: SpanConfig, v: SpanView, p: seq<byte>)
    requires Ready(c, v) && v.current.Some? && v.lastErr.None?
    requires !v.current.value.world.cells[0].isClosed && |p| > c.maxBytes
    requires v.current.value.world.cells[1].bytesWritten >= 0
    requires v.current.value.behaviour.onClose(v.current.value.world.sink.closes).None?
    ensures var s := v.current.value; var w := s.world;
      SpanWrite(c, v, p) ==
        SpanOutcome(v.(current := Some(s.(world := w.(sink := w.sink.(closes := w.sink.closes + 1))))), 0, Some(TooLargeWrite))
  {
    SegmentWrite(c, v.current.value, p);
  }

  /** When the quota closes a full segment and that raw close fails, the quota
      reports the close error wrapped, which is not `ErrTooLargeWrite`; the span
      writer then returns count 0 with a nil error and opens nothing. */
  lemma FailedQuotaCloseIsSilent(c: SpanConfig, v: SpanView, p: seq<byte>)
    requires Ready(c, v) && v.current.Some? && v.lastErr.None?
    requires !v.current.value.world.cells[0].isClosed
    requires v.current.value.world.cells[1].bytesWritten + |p| > c.maxBytes
    requires v.current.value.behaviour.onClose(v.current.value.world.sink.closes).Some?
    ensures var s := v.current.value; var w := s.world;
      SpanWrite(c, v, p) ==
        SpanOutcome(v.(current := Some(s.(world := w.(sink := w.sink.(closes := w.sink.closes + 1))))), 0, None)
  {
    SegmentWrite(c, v.current.value, p);
  }

  /** A write that fits an empty segment but not the current one closes the current
      segment's raw stream and moves on: exactly one factory call, for the next id;
      on success the write is made once into the fresh segment, whose raw result is
      returned and whose error is held. */
  lemma OverflowRotates(c: SpanConfig, v: SpanView, p: seq<byte>)
    requires Ready(c, v) && v.current.Some? && v.lastErr.None?
    requires !v.current.value.world.cells[0].isClosed && |p| <= c.maxBytes
    requires v.current.value.world.cells[1].bytesWritten + |p| > c.maxBytes
    requires v.current.value.behaviour.onClose(v.current.value.world.sink.closes).None?
    ensures var r := SpanWrite(c, v, p); var s := v.current.value; var w := s.world;
      var closed := s.(world := w.(sink := w.sink.(closes := w.sink.closes + 1)));
      var got := c.factory(c.id(v.fileSequence));
      && r.view.fileSequence == v.fileSequence + 1
      && r.view.factoryCalls == v.factoryCalls + [c.id(v.fileSequence)]
      && r.view.retired == v.retired + [closed]
      && (got.OpenFailed? ==> r.view.current.None? && r.n == 0 && r.err == Some(got.err) && r.view.lastErr == r.err)
      && (got.Opened? ==>
            var x := got.behaviour.onWrite(0, p);
            && r.n == (if x.n <= |p| then x.n else |p|) && r.err == x.err && r.view.lastErr == r.err
            && r.view.current.Some? && r.view.current.value.seqNo == v.fileSequence
            && r.view.current.value.behaviour == got.behaviour
            && r.view.current.value.world.sink == Sink(p[..r.n], 1, 0)
            && r.view.current.value.world.cells == [Latch(false), Counter(r.n)])
  {
    var s := v.current.value;
    SegmentWrite(c, s, p);
    var closed := s.(world := s.world.(sink := s.world.sink.(closes := s.world.sink.closes + 1)));
    var v2 := v.(current := Some(closed));
    assert SpanWrite(c, v, p) == Rotate(c, v2, p);
    var v3 := ReInit(c, v2);
    if v3.current.Some? {
      SegmentShape(c.maxBytes);
      SegmentWrite(c, v3.current.value, p);
    }
  }

  /** A successful `Close` closes the current segment once (latch, then raw stream)
      and holds `ErrAlreadyClosed` for every later call. */
  lemma CloseHoldsAlreadyClosed(c: SpanConfig, v: SpanView, p: seq<byte>)
    requires Ready(c, v) && v.current.Some?
    requires !v.current.value.world.cells[0].isClosed
    requires v.current.value.behaviour.onClose(v.current.value.world.sink.closes).None?
    ensures var r := SpanClose(c, v); var s := v.current.value;
      && r.err.None? && r.view.lastErr == Some(AlreadyClosed)
      && r.view.current.Some? && r.view.current.value.world.cells[0] == Latch(true)
      && r.view.current.value.world.sink == s.world.sink.(closes := s.world.sink.closes + 1)
      && SpanWrite(c, r.view, p) == SpanOutcome(r.view, 0, Some(AlreadyClosed))
      && SpanClose(c, r.view) == SpanClosing(r.view, Some(AlreadyClosed))
  {
    var s := v.current.value;
    SegmentClose(c, s);
    var r := SpanClose(c, v);
    SegmentClose(c, r.view.current.value);
  }

  /** A `Close` whose raw close fails returns that error; the segment's latch is
      set nonetheless but no error is held, so a later `Write` is refused by the
      latch and comes back with count 0 and a nil error. */
  lemma FailedCloseLeavesNoError(c: SpanConfig, v: SpanView, p: seq<byte>)
    requires Ready(c, v) && v.current.Some? && v.lastErr.None?
    requires !v.current.value.world.cells[0].isClosed
    requires v.current.value.behaviour.onClose(v.current.value.world.sink.closes).Some?
    ensures var r := SpanClose(c, v); var s := v.current.value;
      && r.err == s.behaviour.onClose(s.world.sink.closes) && r.view.lastErr.None?
      && r.view.current.Some? && r.view.current.value.world.cells[0] == Latch(true)
      && SpanWrite(c, r.view, p) == SpanOutcome(r.view, 0, None)
      && SpanClose(c, r.view) == SpanClosing(r.view, Some(AlreadyClosed))
  {
    var s := v.current.value;
    SegmentClose(c, s);
    var r := SpanClose(c, v);
    SegmentWrite(c, r.view.current.value, p);
    SegmentClose(c, r.view.current.value);
  }

  /** `Close` on a segment whose latch is already set returns `ErrAlreadyClosed` and
      changes nothing. */
  lemma CloseOfClosedSegment(c: SpanConfig, v: SpanView)
    requires Ready(c, v) && v.current.Some? && v.current.value.world.cells[0].isClosed
    ensures SpanClose(c, v) == SpanClosing(v, Some(AlreadyClosed))
  {
    SegmentClose(c, v.current.value);
  }

  // ---------------------------------------------------------------------------
  // A whole run

  /** Segments of five bytes, each an in-memory buffer. */
  function BufferConfig(id: nat -> string): SpanConfig {
    SpanConfig(id, 5, _ => Opened(Buffer()))
  }

  /** A buffer segment holding `contents` after `writes` raw writes and `closes`
      raw closes. */
  function BufferSegment(seqNo: nat, contents: seq<byte>, writes: nat, closes: nat, latched: bool): Segment {
    Segment(seqNo, Buffer(), World([Latch(latched), Counter(|contents|)], Sink(contents, writes, closes), []))
  }

  /** The first write, of 4 bytes, goes into the first segment. */
  lemma RunFirstWrite(id: nat -> string, a: seq<byte>)
    requires |a| == 4
    ensures SpanWrite(BufferConfig(id), NewSpan(BufferConfig(id)), a) ==
      SpanOutcome(SpanView(1, [], Some(BufferSegment(0, a, 1, 0, false)), None, [id(0)]), 4, None)
  {
    var c := BufferConfig(id);
    SegmentShape(5);
    NewSpanOpensFirstSegment(c);
    assert NewSpan(c) == SpanView(1, [], Some(BufferSegment(0, [], 0, 0, false)), None, [id(0)]);
    SegmentWrite(c, BufferSegment(0, [], 0, 0, false), a);
    assert [] + a[..4] == a;
  }

  /** 2 more bytes do not fit: the first segment's buffer is closed and they go into
      a second segment, opened for `id(1)`. */
  lemma RunSecondWrite(id: nat -> string, a: seq<byte>, b: seq<byte>)
    requires |a| == 4 && |b| == 2
    ensures SpanWrite(BufferConfig(id), SpanView(1, [], Some(BufferSegment(0, a, 1, 0, false)), None, [id(0)]), b) ==
      SpanOutcome(SpanView(2, [BufferSegment(0, a, 1, 1, false)], Some(BufferSegment(1, b, 1, 0, false)), None,
                           [id(0), id(1)]), 2, None)
  {
    var c := BufferConfig(id);
    OverflowRotates(c, SpanView(1, [], Some(BufferSegment(0, a, 1, 0, false)), None, [id(0)]), b);
    assert b[..2] == b;
  }

  /** 2 more bytes fit the second segment. */
  lemma RunThirdWrite(id: nat -> string, a: seq<byte>, b: seq<byte>, d: seq<byte>)
    requires |a| == 4 && |b| == 2 && |d| == 2
    ensures SpanWrite(BufferConfig(id), SpanView(2, [BufferSegment(0, a, 1, 1, false)], Some(BufferSegment(1, b, 1, 0, false)), None,
                                                 [id(0), id(1)]), d) ==
      SpanOutcome(SpanView(2, [BufferSegment(0, a, 1, 1, false)], Some(BufferSegment(1, b + d, 2, 0, false)), None,
                           [id(0), id(1)]), 2, None)
  {
    var c := BufferConfig(id);
    var v := SpanView(2, [BufferSegment(0, a, 1, 1, false)], Some(BufferSegment(1, b, 1, 0, false)), None, [id(0), id(1)]);
    SegmentWrite(c, v.current.value, d);
    assert d[..2] == d;
  }

  /** 5 bytes do not fit the second segment: they fill a third one, for `id(2)`. */
  lemma RunFourthWrite(id: nat -> string, a: seq<byte>, bd: seq<byte>, e: seq<byte>)
    requires |a| == 4 && |bd| == 4 && |e| == 5
    ensures SpanWrite(BufferConfig(id), SpanView(2, [BufferSegment(0, a, 1, 1, false)], Some(BufferSegment(1, bd, 2, 0, false)), None,
                                                 [id(0), id(1)]), e) ==
      SpanOutcome(SpanView(3, [BufferSegment(0, a, 1, 1, false), BufferSegment(1, bd, 2, 1, false)],
                           Some(BufferSegment(2, e, 1, 0, false)), None, [id(0), id(1), id(2)]), 5, None)
  {
    var c := BufferConfig(id);
    var v := SpanView(2, [BufferSegment(0, a, 1, 1, false)], Some(BufferSegment(1, bd, 2, 0, false)), None, [id(0), id(1)]);
    OverflowRotates(c, v, e);
    assert e[..5] == e;
  }

  /** A write of more than 5 bytes can never fit: it is refused with
      `ErrTooLargeWrite`, after the full third segment's buffer has been closed. */
  lemma RunOversizedWrite(id: nat -> string, segments: seq<Segment>, e: seq<byte>, big: seq<byte>)
    requires |e| == 5 && |big| > 5
    ensures SpanWrite(BufferConfig(id), SpanView(3, segments, Some(BufferSegment(2, e, 1, 0, false)), None,
                                                 [id(0), id(1), id(2)]), big) ==
      SpanOutcome(SpanView(3, segments, Some(BufferSegment(2, e, 1, 1, false)), None, [id(0), id(1), id(2)]),
                  0, Some(TooLargeWrite))
  {
    var c := BufferConfig(id);
    PermanentOverflow(c, SpanView(3, segments, Some(BufferSegment(2, e, 1, 0, false)), None, [id(0), id(1), id(2)]), big);
  }

  /** `Close` then succeeds, closing the third buffer a second time, and every
      later write fails with `ErrAlreadyClosed`. */
  lemma RunClose(id: nat -> string, segments: seq<Segment>, e: seq<byte>, late: seq<byte>)
    requires |e| == 5
    ensures var closed := SpanView(3, segments, Some(BufferSegment(2, e, 1, 2, true)), Some(AlreadyClosed),
                                   [id(0), id(1), id(2)]);
      && SpanClose(BufferConfig(id), SpanView(3, segments, Some(BufferSegment(2, e, 1, 1, false)), None,
                                              [id(0), id(1), id(2)])) == SpanClosing(closed, None)
      && SpanWrite(BufferConfig(id), closed, late) == SpanOutcome(closed, 0, Some(AlreadyClosed))
  {
    var c := BufferConfig(id);
    SegmentClose(c, BufferSegment(2, e, 1, 1, false));
    CloseHoldsAlreadyClosed(c, SpanView(3, segments, Some(BufferSegment(2, e, 1, 1, false)), None, [id(0), id(1), id(2)]), late);
  }

  /** The whole run: writes of 4, 2, 2 and 5 bytes leave three segments, for
      `id(0)`, `id(1)` and `id(2)`, holding the 4 bytes, the two 2-byte writes and
      the 5 bytes; the oversized write and the late write fail as above. */
  lemma ThreeSegmentRun(id: nat -> string, a: seq<byte>, b: seq<byte>, d: seq<byte>, e: seq<byte>,
                        big: seq<byte>, late: seq<byte>)
    requires |a| == 4 && |b| == 2 && |d| == 2 && |e| == 5 && |big| > 5
    ensures var c := BufferConfig(id);
      var r1 := SpanWrite(c, NewSpan(c), a);
      var r2 := SpanWrite(c, r1.view, b);
      var r3 := SpanWrite(c, r2.view, d);
      var r4 := SpanWrite(c, r3.view, e);
      var r5 := SpanWrite(c, r4.view, big);
      && r1.err.None? && r2.err.None? && r3.err.None? && r4.err.None? && r5.err == Some(TooLargeWrite)
      && r5.view.current.Some?
      && var k := SpanClose(c, r5.view);
      && k.err.None? && SpanWrite(c, k.view, late).err == Some(AlreadyClosed)
      && k.view.factoryCalls == [id(0), id(1), id(2)]
      && Segments(k.view) == [BufferSegment(0, a, 1, 1, false), BufferSegment(1, b + d, 2, 1, false),
                               BufferSegment(2, e, 1, 2, true)]
  {
    RunFirstWrite(id, a);
    RunSecondWrite(id, a, b);
    RunThirdWrite(id, a, b, d);
    RunFourthWrite(id, a, b + d, e);
    var segments := [BufferSegment(0, a, 1, 1, false), BufferSegment(1, b + d, 2, 1, false)];
    RunOversizedWrite(id, segments, e, big);
    RunClose(id, segments, e, late);
  }

  // ---------------------------------------------------------------------------
  // The writer object

  /** The value `NewSpanWriter` returns: the closure state of the original
      (`fileSequence`, `currentWriter`, `lastErr`) as fields, and as ghost fields
      what the model keeps about the segments let go and the factory's calls. */
  class SpanWriter {
    const id: nat -> string
    const maxBytes: int
    const factory: string -> Opened
    var fileSequence: nat
    var current: Option<Stream>
    var lastErr: Option<Err>
    ghost var retired: seq<Segment>
    ghost var currentSeqNo: nat
    ghost var factoryCalls: seq<string>

    function Config(): SpanConfig {
      SpanConfig(id, maxBytes, factory)
    }

    ghost function Footprint(): set<object>
      reads this
    {
      {this} + (if current.Some? then {current.value} else {})
    }

    /** The current segment, if any, is a well-formed segment stream. */
    ghost predicate SegmentReady()
      reads this, Footprint()
    {
      current.Some? ==> current.value.Valid() && current.value.layers == SegmentLayers(maxBytes)
    }

    ghost predicate Valid()
      reads this, Footprint()
    {
      SegmentReady() && (current.None? ==> lastErr.Some?)
    }

    ghost function View(): SpanView
      reads this, Footprint()
    {
      var segment := if current.Some? then Some(Segment(currentSeqNo, current.value.raw, current.value.State())) else None;
      SpanView(fileSequence, retired, segment, lastErr, factoryCalls)
    }

    constructor (id: nat -> string, maxBytes: int, factory: string -> Opened)
      ensures Valid() && Config() == SpanConfig(id, maxBytes, factory)
      ensures View() == NewSpan(Config())
    {
      this.id, this.maxBytes, this.factory := id, maxBytes, factory;
      fileSequence, current, lastErr := 0, None, None;
      retired, currentSeqNo, factoryCalls := [], 0, [];
      new;
      ReInitWriter();
    }

    /** `reInitWriter`: open the segment for the next file id. */
    method ReInitWriter()
      requires SegmentReady()
      modifies this
      ensures Valid()
      ensures View() == ReInit(Config(), old(View()))
      ensures current.Some? ==> fresh(current.value)
    {
      ghost var v0 := View();
      var fileId := id(fileSequence);
      factoryCalls := factoryCalls + [fileId];
      retired := Segments(View());
      match factory(fileId)
      case OpenFailed(e) =>
        current, lastErr := None, Some(e);
        assert ReInit(Config(), v0) == SpanView(fileSequence + 1, retired, None, Some(e), factoryCalls);
        fileSequence := fileSequence + 1;
        assert View() == SpanView(fileSequence, retired, None, Some(e), factoryCalls);
      case Opened(b) =>
        var raw := new Stream(b);
        var limited := NewLimitedWriter(raw, [WithMaxBytes(maxBytes)]);
        SegmentShape(maxBytes);
        assert limited.State() == FreshWorld(SegmentLayers(maxBytes));
        current, lastErr, currentSeqNo := Some(limited), None, fileSequence;
        fileSequence := fileSequence + 1;
    }

    method Write(p: seq<byte>) returns (n: nat, err: Option<Err>)
      requires Valid()
      modifies Footprint()
      ensures Valid()
      ensures SpanOutcome(View(), n, err) == SpanWrite(Config(), old(View()), p)
    {
      if current.None? {
        ReInitWriter();
      }
      if lastErr.Some? {
        return 0, lastErr;
      }
      ghost var v1 := View();
      var segment := current.value;
      n, err := segment.Write(p);
      if err == Some(TooLargeWrite) {
        if |p| > maxBytes {
          return n, err;
        }
        ghost var v2 := View();
        ReInitWriter();
        if lastErr.Some? {
          return 0, lastErr;
        }
        n, lastErr := current.value.Write(p);
        assert SpanOutcome(View(), n, lastErr) == Rotate(Config(), v2, p);
      }
      return n, lastErr;
    }

    method Close() returns (err: Option<Err>)
      requires Valid() && current.Some?
      modifies Footprint()
      ensures Valid()
      ensures SpanClosing(View(), err) == SpanClose(Config(), old(View()))
    {
      err := current.value.Close();
      if err.Some? {
        return;
      }
      lastErr := Some(AlreadyClosed);
    }
  }
}
