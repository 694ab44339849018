/** The synchronised decorator: an `isClosed` latch in front of a stream so that
    the inner `Close` is reached at most once and every call after it fails fast. */
module Synced {
  import opened Errors
  import opened Stack

  method NewSyncedWriteCloser(w: Stream) returns (r: Stream)
    requires w.Valid()
    ensures fresh(r) && r.Valid() && r.raw == w.raw
    ensures r.layers == [Synced] + w.layers
    ensures r.State() == World([Latch(false)] + w.cells, w.sink, w.log)
  {
    r := new Stream.Wrap(Synced, w);
  }

  /** While open, `Write` delegates, returns the inner result unchanged and leaves
      the latch open. */
  lemma WriteWhileOpen(layers: seq<Layer>, b: Behaviour, i: nat, w: World, p: seq<byte>)
    requires i < |layers| && WellFormed(layers, w.cells) && layers[i].Synced?
    requires !w.cells[i].isClosed
    ensures var r := WriteFrom(layers, b, i, w, p);
      r == WriteFrom(layers, b, i + 1, w, p) && r.world.cells[i] == Latch(false)
  {
  }

  /** Once closed, `Write` returns `(0, ErrAlreadyClosed)` and nothing changes. */
  lemma WriteAfterClose(layers: seq<Layer>, b: Behaviour, i: nat, w: World, p: seq<byte>)
    requires i < |layers| && WellFormed(layers, w.cells) && layers[i].Synced?
    requires w.cells[i].isClosed
    ensures WriteFrom(layers, b, i, w, p) == Outcome(w, 0, Some(AlreadyClosed))
  {
  }

  /** The first `Close` sets the latch before it calls the inner `Close` and returns
      the inner result: the wrapper is closed even when the inner close failed. */
  lemma FirstClose(layers: seq<Layer>, b: Behaviour, i: nat, w: World)
    requires i < |layers| && WellFormed(layers, w.cells) && layers[i].Synced?
    requires !w.cells[i].isClosed
    ensures var r := CloseFrom(layers, b, i, w);
      && r == CloseFrom(layers, b, i + 1, w.(cells := w.cells[i := Latch(true)]))
      && r.world.cells[i] == Latch(true)
  {
  }

  /** After any `Close`, a second `Close` returns `ErrAlreadyClosed` and a `Write`
      returns `(0, ErrAlreadyClosed)`, both without reaching the inner stream. */
  lemma SecondCloseFails(layers: seq<Layer>, b: Behaviour, i: nat, w: World, p: seq<byte>)
    requires i < |layers| && WellFormed(layers, w.cells) && layers[i].Synced?
    ensures var first := CloseFrom(layers, b, i, w).world;
      && first.cells[i] == Latch(true)
      && CloseFrom(layers, b, i, first) == Closing(first, Some(AlreadyClosed))
      && WriteFrom(layers, b, i, first, p) == Outcome(first, 0, Some(AlreadyClosed))
  {
  }

  /** A call made on a stream. */
  datatype Call = WriteCall(payload: seq<byte>) | CloseCall

  /** The stream's state after a sequence of calls. */
  function Replay(layers: seq<Layer>, b: Behaviour, w: World, calls: seq<Call>): (r: World)
    requires WellFormed(layers, w.cells)
    ensures WellFormed(layers, r.cells)
    decreases |calls|
  {
    if calls == [] then w
    else
      var next := match calls[0]
        case WriteCall(p) => WriteFrom(layers, b, 0, w, p).world
        case CloseCall => CloseFrom(layers, b, 0, w).world;
      Replay(layers, b, next, calls[1..])
  }

  /** Whatever calls are made, a synced wrapper closes the raw stream under it at
      most once, and it has done so exactly when its latch is set. */
  lemma {:induction false} ClosesRawAtMostOnce(b: Behaviour, w: World, calls: seq<Call>)
    requires WellFormed([Synced], w.cells)
    requires w.sink.closes == if w.cells[0].isClosed then 1 else 0
    ensures var r := Replay([Synced], b, w, calls);
      r.sink.closes == (if r.cells[0].isClosed then 1 else 0) && r.sink.closes <= 1
    decreases |calls|
  {
    if calls != [] {
      var next := match calls[0]
        case WriteCall(p) => WriteFrom([Synced], b, 0, w, p).world
        case CloseCall => CloseFrom([Synced], b, 0, w).world;
      assert next.sink.closes == if next.cells[0].isClosed then 1 else 0;
      ClosesRawAtMostOnce(b, next, calls[1..]);
    }
  }

  /** A new wrapper starts open, with its inner stream not yet closed through it. */
  lemma StartsOpen(b: Behaviour)
    ensures var w := FreshWorld([Synced]);
      w.cells == [Latch(false)] && w.sink.closes == 0
  {
  }
}
