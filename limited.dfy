/** The self-closing writer: options fold decorators over a stream, and the result
    is wrapped in the synced decorator. `WithMaxBytes(maxBytes)` is the one option;
    it adds a `Quota(maxBytes)` layer with its own `bytesWritten` counter. */
module Limited {
  import opened Errors
  import opened Stack
  import Synced

  datatype LimitedWriterOption = WithMaxBytes(maxBytes: int)

  /** The decorator an option builds around a writer. */
  function OptionLayer(o: LimitedWriterOption): Layer {
    match o
    case WithMaxBytes(maxBytes) => Quota(maxBytes)
  }

  /** The layers after `w = o(w)` for each option in turn: the last option ends up
      outermost. */
  function Folded(options: seq<LimitedWriterOption>, inner: seq<Layer>): seq<Layer>
    decreases |options|
  {
    if options == [] then inner
    else [OptionLayer(options[|options| - 1])] + Folded(options[..|options| - 1], inner)
  }

  /** The layers of `NewLimitedWriter(w, options...)` when `w` has layers `inner`. */
  function LimitedLayers(options: seq<LimitedWriterOption>, inner: seq<Layer>): seq<Layer> {
    [Synced] + Folded(options, inner)
  }

  /** Options are applied in order, each around the result of the previous one. */
  lemma {:induction false} FoldedInOrder(options: seq<LimitedWriterOption>, inner: seq<Layer>)
    ensures var f := Folded(options, inner);
      && |f| == |options| + |inner|
      && (forall k :: 0 <= k < |options| ==> f[k] == OptionLayer(options[|options| - 1 - k]))
      && f[|options|..] == inner
    decreases |options|
  {
    if options != [] {
      FoldedInOrder(options[..|options| - 1], inner);
    }
  }

  /** Every call to `WithMaxBytes` starts its own counter at 0. */
  function ZeroCounters(count: nat): seq<Cell> {
    if count == 0 then [] else [Counter(0)] + ZeroCounters(count - 1)
  }

  lemma {:induction false} ZeroCountersAreZero(count: nat)
    ensures |ZeroCounters(count)| == count
    ensures forall k :: 0 <= k < count ==> ZeroCounters(count)[k] == Counter(0)
  {
    if count > 0 {
      ZeroCountersAreZero(count - 1);
    }
  }

  method NewLimitedWriter(w: Stream, options: seq<LimitedWriterOption>) returns (r: Stream)
    requires w.Valid()
    ensures fresh(r) && r.Valid() && r.raw == w.raw
    ensures r.layers == LimitedLayers(options, w.layers)
    ensures r.State() == World([Latch(false)] + ZeroCounters(|options|) + w.cells, w.sink, w.log)
    ensures |r.layers| == 1 + |options| + |w.layers| && r.layers[0] == Synced
    ensures forall k :: 1 <= k <= |options| ==> r.layers[k] == OptionLayer(options[|options| - k])
    ensures r.layers[1 + |options|..] == w.layers
    ensures forall k :: 1 <= k <= |options| ==> r.cells[k] == Counter(0)
    ensures r.cells[1 + |options|..] == w.cells
  {
    var folded := FoldOptions(w, options);
    r := Synced.NewSyncedWriteCloser(folded);
    assert [Latch(false)] + (ZeroCounters(|options|) + w.cells) == [Latch(false)] + ZeroCounters(|options|) + w.cells;
    LimitedShape(options, w.layers, w.cells);
  }

  /** The loop `w = o(w)` over the options, in order. */
  method FoldOptions(w: Stream, options: seq<LimitedWriterOption>) returns (r: Stream)
    requires w.Valid()
    ensures r.Valid() && r.raw == w.raw && (r == w || fresh(r))
    ensures r.layers == Folded(options, w.layers)
    ensures r.cells == ZeroCounters(|options|) + w.cells && r.sink == w.sink && r.log == w.log
  {
    r := w;
    for j := 0 to |options|
      invariant r.Valid() && r.raw == w.raw && (r == w || fresh(r))
      invariant r.layers == Folded(options[..j], w.layers)
      invariant r.cells == ZeroCounters(j) + w.cells
      invariant r.sink == w.sink && r.log == w.log
    {
      FoldStep(options, j, w.layers);
      assert [Counter(0)] + (ZeroCounters(j) + w.cells) == ZeroCounters(j + 1) + w.cells;
      r := Apply(options[j], r);
    }
    assert options[..|options|] == options;
  }

  /** The chain `NewLimitedWriter` builds, layer by layer: the latch outermost,
      then one quota per option, the last option first, each counter at 0, then
      the inner writer's layers and state. */
  lemma LimitedShape(options: seq<LimitedWriterOption>, inner: seq<Layer>, cells: seq<Cell>)
    ensures var layers := LimitedLayers(options, inner);
      var all := [Latch(false)] + ZeroCounters(|options|) + cells;
      && |layers| == 1 + |options| + |inner| && layers[0] == Synced
      && (forall k :: 1 <= k <= |options| ==> layers[k] == OptionLayer(options[|options| - k]))
      && layers[1 + |options|..] == inner
      && |all| == 1 + |options| + |cells| && all[0] == Latch(false)
      && (forall k :: 1 <= k <= |options| ==> all[k] == Counter(0))
      && all[1 + |options|..] == cells
  {
    FoldedInOrder(options, inner);
    ZeroCountersAreZero(|options|);
    var layers := LimitedLayers(options, inner);
    var all := [Latch(false)] + ZeroCounters(|options|) + cells;
    assert layers[1..] == Folded(options, inner);
    assert all[1..] == ZeroCounters(|options|) + cells;
    assert layers[1 + |options|..] == Folded(options, inner)[|options|..];
    assert all[1 + |options|..] == (ZeroCounters(|options|) + cells)[|options|..];
  }

  /** `o(w)`: the decorator an option builds, with its counter at 0. */
  method Apply(o: LimitedWriterOption, w: Stream) returns (r: Stream)
    requires w.Valid()
    ensures fresh(r) && r.Valid() && r.raw == w.raw
    ensures r.layers == [OptionLayer(o)] + w.layers
    ensures r.cells == [Counter(0)] + w.cells && r.sink == w.sink && r.log == w.log
  {
    r := new Stream.Wrap(OptionLayer(o), w);
  }

  /** One more option adds one more layer, outermost, with a fresh counter. */
  lemma FoldStep(options: seq<LimitedWriterOption>, j: nat, inner: seq<Layer>)
    requires j < |options|
    ensures Folded(options[..j + 1], inner) == [OptionLayer(options[j])] + Folded(options[..j], inner)
    ensures InitialCell(OptionLayer(options[j])) == Counter(0)
  {
    assert options[..j + 1][..j] == options[..j];
  }

  /** A write that fits the quota reaches the inner writer, whose result is returned
      unchanged, and the counter grows by exactly the count it returned, staying
      within `maxBytes`. */
  lemma WriteWithinQuota(layers: seq<Layer>, b: Behaviour, i: nat, w: World, p: seq<byte>)
    requires i < |layers| && WellFormed(layers, w.cells) && layers[i].Quota?
    requires w.cells[i].bytesWritten + |p| <= layers[i].maxBytes
    ensures var o := WriteFrom(layers, b, i + 1, w, p);
      var r := WriteFrom(layers, b, i, w, p);
      && r.n == o.n && r.err == o.err
      && r.world.sink == o.world.sink && r.world.log == o.world.log
      && r.world.cells[i] == Counter(w.cells[i].bytesWritten + o.n)
      && r.world.cells[i].bytesWritten <= layers[i].maxBytes
  {
  }

  /** A write that would exceed the quota returns count 0 and never reaches the
      inner writer: the counter and the stream's contents stay as they were. The
      inner writer is closed instead; the error is `ErrTooLargeWrite`, or the close
      error wrapped when that close failed. Directly above the raw stream, the raw
      stream is closed once and not written. */
  lemma WriteOverQuota(layers: seq<Layer>, b: Behaviour, i: nat, w: World, p: seq<byte>)
    requires i < |layers| && WellFormed(layers, w.cells) && layers[i].Quota?
    requires w.cells[i].bytesWritten + |p| > layers[i].maxBytes
    ensures var c := CloseFrom(layers, b, i + 1, w);
      var r := WriteFrom(layers, b, i, w, p);
      && r.n == 0 && r.world == c.world
      && r.err == Some(if c.err.Some? then Wrapped(c.err.value) else TooLargeWrite)
      && r.world.cells[i] == w.cells[i]
      && r.world.sink.contents == w.sink.contents
      && (i + 1 == |layers| ==> r.world.sink == w.sink.(closes := w.sink.closes + 1))
  {
  }

  /** Every quota counter of a chain is at most its `maxBytes` (or still 0, when
      `maxBytes` is negative) and never negative. */
  ghost predicate WithinQuota(layers: seq<Layer>, cells: seq<Cell>)
    requires WellFormed(layers, cells)
  {
    forall k :: 0 <= k < |layers| && layers[k].Quota? ==>
      0 <= cells[k].bytesWritten && (cells[k].bytesWritten <= layers[k].maxBytes || cells[k].bytesWritten == 0)
  }

  lemma FreshWithinQuota(layers: seq<Layer>)
    ensures WithinQuota(layers, FreshWorld(layers).cells)
  {
  }

  /** `Write`, wherever it enters the chain, keeps every counter within its quota.
      This rests on each inner write reporting at most `|p|` bytes. */
  lemma {:induction false} WriteKeepsQuota(layers: seq<Layer>, b: Behaviour, i: nat, w: World, p: seq<byte>)
    requires i <= |layers| && WellFormed(layers, w.cells) && WithinQuota(layers, w.cells)
    ensures WithinQuota(layers, WriteFrom(layers, b, i, w, p).world.cells)
    decreases |layers| - i
  {
    if i < |layers| {
      match layers[i]
      case PreWrite(hooks) =>
        var k := FirstFailing(WriteVerdicts(hooks, p));
        if k == |hooks| {
          WriteKeepsQuota(layers, b, i + 1, w.(log := w.log + PreWriteRuns(i, |hooks|, p)), p);
        }
      case PostWrite(_) =>
        WriteKeepsQuota(layers, b, i + 1, w, p);
      case PreClose(_) =>
        WriteKeepsQuota(layers, b, i + 1, w, p);
      case PostClose(_) =>
        WriteKeepsQuota(layers, b, i + 1, w, p);
      case Quota(maxBytes) =>
        if w.cells[i].bytesWritten + |p| <= maxBytes {
          WriteKeepsQuota(layers, b, i + 1, w, p);
        }
      case Synced =>
        if !w.cells[i].isClosed {
          WriteKeepsQuota(layers, b, i + 1, w, p);
        }
    }
  }

  /** `Close` never changes a counter. */
  lemma CloseKeepsQuota(layers: seq<Layer>, b: Behaviour, i: nat, w: World)
    requires i <= |layers| && WellFormed(layers, w.cells) && WithinQuota(layers, w.cells)
    ensures WithinQuota(layers, CloseFrom(layers, b, i, w).world.cells)
  {
  }

  /** A write that exactly fills `NewLimitedWriter(buffer, WithMaxBytes(32))` (32
      bytes) is taken whole; any further non-empty write is refused with count 0 and
      the buffer still holds just the first 32 bytes. */
  lemma ExactFillThenRefuse(first: seq<byte>, second: seq<byte>)
    requires |first| == 32 && |second| > 0
    ensures var layers := LimitedLayers([WithMaxBytes(32)], []);
      var r1 := WriteFrom(layers, Buffer(), 0, FreshWorld(layers), first);
      var r2 := WriteFrom(layers, Buffer(), 0, r1.world, second);
      && r1.n == 32 && r1.err.None? && r1.world.sink.contents == first
      && r2.n == 0 && r2.err == Some(TooLargeWrite) && r2.world.sink.contents == first
  {
    var layers := LimitedLayers([WithMaxBytes(32)], []);
    assert layers == [Synced, Quota(32)];
    var w0 := FreshWorld(layers);
    assert w0.cells == [Latch(false), Counter(0)];
    var r1 := WriteFrom(layers, Buffer(), 0, w0, first);
    var q1 := WriteFrom(layers, Buffer(), 1, w0, first);
    var raw1 := WriteFrom(layers, Buffer(), 2, w0, first);
    assert raw1.n == 32 && raw1.err.None?;
    assert first[..32] == first;
    assert q1.world.cells == [Latch(false), Counter(32)];
    assert r1 == q1;
    var r2 := WriteFrom(layers, Buffer(), 0, r1.world, second);
    var q2 := WriteFrom(layers, Buffer(), 1, r1.world, second);
    assert r2 == q2;
  }
}
