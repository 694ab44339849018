/** The hook decorators: `CustomWriteCloser` and the four constructors that put
    ordered callback lists in front of or behind `Write` and `Close`. */
module Callbacks {
  import opened Errors
  import opened Stack

  /** A writer whose `Write` and `Close` are two given functions. */
  class CustomWriteCloser {
    const writer: seq<byte> -> WriteResult
    const closer: () -> Option<Err>

    constructor (writer: seq<byte> -> WriteResult, closer: () -> Option<Err>)
      ensures this.writer == writer && this.closer == closer
    {
      this.writer, this.closer := writer, closer;
    }

    /** Returns exactly what the `Writer` function returns. */
    method Write(p: seq<byte>) returns (n: nat, err: Option<Err>)
      ensures WriteResult(n, err) == writer(p)
    {
      var r := writer(p);
      n, err := r.n, r.err;
    }

    /** Returns exactly what the `Closer` function returns. */
    method Close() returns (err: Option<Err>)
      ensures err == closer()
    {
      err := closer();
    }
  }

  method NewPreWriteCallbacks(w: Stream, hooks: seq<PreWriteHook>) returns (r: Stream)
    requires w.Valid()
    ensures fresh(r) && r.Valid() && r.raw == w.raw
    ensures r.layers == [PreWrite(hooks)] + w.layers
    ensures r.State() == World([Stateless] + w.cells, w.sink, w.log)
  {
    r := new Stream.Wrap(PreWrite(hooks), w);
  }

  method NewPostWriteCallbacks(w: Stream, observers: seq<HookName>) returns (r: Stream)
    requires w.Valid()
    ensures fresh(r) && r.Valid() && r.raw == w.raw
    ensures r.layers == [PostWrite(observers)] + w.layers
    ensures r.State() == World([Stateless] + w.cells, w.sink, w.log)
  {
    r := new Stream.Wrap(PostWrite(observers), w);
  }

  method NewPreCloseCallbacks(w: Stream, hooks: seq<PreCloseHook>) returns (r: Stream)
    requires w.Valid()
    ensures fresh(r) && r.Valid() && r.raw == w.raw
    ensures r.layers == [PreClose(hooks)] + w.layers
    ensures r.State() == World([Stateless] + w.cells, w.sink, w.log)
  {
    r := new Stream.Wrap(PreClose(hooks), w);
  }

  method NewPostCloseCallbacks(w: Stream, observers: seq<HookName>) returns (r: Stream)
    requires w.Valid()
    ensures fresh(r) && r.Valid() && r.raw == w.raw
    ensures r.layers == [PostClose(observers)] + w.layers
    ensures r.State() == World([Stateless] + w.cells, w.sink, w.log)
  {
    r := new Stream.Wrap(PostClose(observers), w);
  }

  // The logs the callback loops leave behind: one entry per callback, in order.

  lemma {:induction false} PreWriteRunsInOrder(layer: nat, count: nat, p: seq<byte>)
    ensures |PreWriteRuns(layer, count, p)| == count
    ensures forall j :: 0 <= j < count ==> PreWriteRuns(layer, count, p)[j] == PreWriteRan(layer, j, p)
  {
    if count > 0 {
      PreWriteRunsInOrder(layer, count - 1, p);
    }
  }

  lemma {:induction false} PreCloseRunsInOrder(layer: nat, count: nat)
    ensures |PreCloseRuns(layer, count)| == count
    ensures forall j :: 0 <= j < count ==> PreCloseRuns(layer, count)[j] == PreCloseRan(layer, j)
  {
    if count > 0 {
      PreCloseRunsInOrder(layer, count - 1);
    }
  }

  lemma {:induction false} WriteObservationsInOrder(layer: nat, observers: seq<HookName>, count: nat, p: seq<byte>, n: nat, err: Option<Err>)
    requires count <= |observers|
    ensures |WriteObservations(layer, observers, count, p, n, err)| == count
    ensures forall j :: 0 <= j < count ==>
      WriteObservations(layer, observers, count, p, n, err)[j] == WriteObserved(layer, observers[j], p, n, err)
  {
    if count > 0 {
      WriteObservationsInOrder(layer, observers, count - 1, p, n, err);
    }
  }

  lemma {:induction false} CloseObservationsInOrder(layer: nat, observers: seq<HookName>, count: nat, err: Option<Err>)
    requires count <= |observers|
    ensures |CloseObservations(layer, observers, count, err)| == count
    ensures forall j :: 0 <= j < count ==>
      CloseObservations(layer, observers, count, err)[j] == CloseObserved(layer, observers[j], err)
  {
    if count > 0 {
      CloseObservationsInOrder(layer, observers, count - 1, err);
    }
  }

  /** Pre-write: the hooks run in order up to the first one that returns an error;
      that error is returned with count 0, no later hook runs and nothing below the
      layer is touched. */
  lemma PreWriteStopsAtFirstError(layers: seq<Layer>, b: Behaviour, i: nat, w: World, p: seq<byte>, k: nat)
    requires i < |layers| && WellFormed(layers, w.cells) && layers[i].PreWrite?
    requires k < |layers[i].preHooks| && layers[i].preHooks[k](p).Some?
    requires forall j :: 0 <= j < k ==> layers[i].preHooks[j](p).None?
    ensures var r := WriteFrom(layers, b, i, w, p);
      && r.n == 0 && r.err == layers[i].preHooks[k](p)
      && r.world.cells == w.cells && r.world.sink == w.sink
      && |r.world.log| == |w.log| + k + 1 && r.world.log[..|w.log|] == w.log
      && forall j :: 0 <= j <= k ==> r.world.log[|w.log| + j] == PreWriteRan(i, j, p)
  {
    var hooks := layers[i].preHooks;
    var verdicts := WriteVerdicts(hooks, p);
    assert verdicts[k].Some?;
    assert FirstFailing(verdicts) == k;
    PreWriteRunsInOrder(i, k + 1, p);
  }

  /** Pre-write: when every hook returns nil, all of them run, in order, and the
      result is exactly that of the inner `Write(p)`. */
  lemma PreWriteAllPass(layers: seq<Layer>, b: Behaviour, i: nat, w: World, p: seq<byte>)
    requires i < |layers| && WellFormed(layers, w.cells) && layers[i].PreWrite?
    requires forall j :: 0 <= j < |layers[i].preHooks| ==> layers[i].preHooks[j](p).None?
    ensures var hooks := layers[i].preHooks; var ran := w.log + PreWriteRuns(i, |hooks|, p);
      && WriteFrom(layers, b, i, w, p) == WriteFrom(layers, b, i + 1, w.(log := ran), p)
      && |ran| == |w.log| + |hooks|
      && forall j :: 0 <= j < |hooks| ==> ran[|w.log| + j] == PreWriteRan(i, j, p)
  {
    var hooks := layers[i].preHooks;
    assert FirstFailing(WriteVerdicts(hooks, p)) == |hooks|;
    PreWriteRunsInOrder(i, |hooks|, p);
  }

  /** Post-write: the inner write runs once and its `(n, err)` is returned unchanged;
      every observer then sees `(p, n, err)`, in order. Directly above the raw stream
      this is exactly one raw write. */
  lemma PostWriteObservesInnerWrite(layers: seq<Layer>, b: Behaviour, i: nat, w: World, p: seq<byte>)
    requires i < |layers| && WellFormed(layers, w.cells) && layers[i].PostWrite?
    ensures var o := WriteFrom(layers, b, i + 1, w, p);
      var r := WriteFrom(layers, b, i, w, p);
      var observers := layers[i].writeObservers;
      && r.n == o.n && r.err == o.err
      && r.world.cells == o.world.cells && r.world.sink == o.world.sink
      && |r.world.log| == |o.world.log| + |observers| && r.world.log[..|o.world.log|] == o.world.log
      && (forall j :: 0 <= j < |observers| ==>
            r.world.log[|o.world.log| + j] == WriteObserved(i, observers[j], p, o.n, o.err))
      && (i + 1 == |layers| ==> r.world.sink.writes == w.sink.writes + 1)
  {
    var o := WriteFrom(layers, b, i + 1, w, p);
    var observers := layers[i].writeObservers;
    WriteObservationsInOrder(i, observers, |observers|, p, o.n, o.err);
  }

  /** Pre-close: the first hook that fails aborts the close with its error and the
      inner `Close` is not invoked. */
  lemma PreCloseStopsAtFirstError(layers: seq<Layer>, b: Behaviour, i: nat, w: World, k: nat)
    requires i < |layers| && WellFormed(layers, w.cells) && layers[i].PreClose?
    requires k < |layers[i].closeHooks| && layers[i].closeHooks[k]().Some?
    requires forall j :: 0 <= j < k ==> layers[i].closeHooks[j]().None?
    ensures var r := CloseFrom(layers, b, i, w);
      && r.err == layers[i].closeHooks[k]()
      && r.world.cells == w.cells && r.world.sink == w.sink
      && |r.world.log| == |w.log| + k + 1 && r.world.log[..|w.log|] == w.log
      && forall j :: 0 <= j <= k ==> r.world.log[|w.log| + j] == PreCloseRan(i, j)
  {
    var verdicts := CloseVerdicts(layers[i].closeHooks);
    assert verdicts[k].Some?;
    assert FirstFailing(verdicts) == k;
    PreCloseRunsInOrder(i, k + 1);
  }

  /** Pre-close: when every hook returns nil, the result is that of the inner `Close`. */
  lemma PreCloseAllPass(layers: seq<Layer>, b: Behaviour, i: nat, w: World)
    requires i < |layers| && WellFormed(layers, w.cells) && layers[i].PreClose?
    requires forall j :: 0 <= j < |layers[i].closeHooks| ==> layers[i].closeHooks[j]().None?
    ensures var hooks := layers[i].closeHooks; var ran := w.log + PreCloseRuns(i, |hooks|);
      && CloseFrom(layers, b, i, w) == CloseFrom(layers, b, i + 1, w.(log := ran))
      && |ran| == |w.log| + |hooks|
      && forall j :: 0 <= j < |hooks| ==> ran[|w.log| + j] == PreCloseRan(i, j)
  {
    var hooks := layers[i].closeHooks;
    assert FirstFailing(CloseVerdicts(hooks)) == |hooks|;
    PreCloseRunsInOrder(i, |hooks|);
  }

  /** Post-close: the inner `Close` runs once, every observer sees its error in order,
      and that error is returned unchanged. */
  lemma PostCloseObservesInnerClose(layers: seq<Layer>, b: Behaviour, i: nat, w: World)
    requires i < |layers| && WellFormed(layers, w.cells) && layers[i].PostClose?
    ensures var c := CloseFrom(layers, b, i + 1, w);
      var r := CloseFrom(layers, b, i, w);
      var observers := layers[i].closeObservers;
      && r.err == c.err
      && r.world.cells == c.world.cells && r.world.sink == c.world.sink
      && |r.world.log| == |c.world.log| + |observers| && r.world.log[..|c.world.log|] == c.world.log
      && (forall j :: 0 <= j < |observers| ==>
            r.world.log[|c.world.log| + j] == CloseObserved(i, observers[j], c.err))
      && (i + 1 == |layers| ==> r.world.sink.closes == w.sink.closes + 1)
  {
    var c := CloseFrom(layers, b, i + 1, w);
    var observers := layers[i].closeObservers;
    CloseObservationsInOrder(i, observers, |observers|, c.err);
  }

  /** The write decorators hand `Close` straight to the inner stream. */
  lemma WriteHooksPassClose(layers: seq<Layer>, b: Behaviour, i: nat, w: World)
    requires i < |layers| && WellFormed(layers, w.cells)
    requires layers[i].PreWrite? || layers[i].PostWrite?
    ensures CloseFrom(layers, b, i, w) == CloseFrom(layers, b, i + 1, w)
  {
  }

  /** The close decorators hand `Write` straight to the inner stream. */
  lemma CloseHooksPassWrite(layers: seq<Layer>, b: Behaviour, i: nat, w: World, p: seq<byte>)
    requires i < |layers| && WellFormed(layers, w.cells)
    requires layers[i].PreClose? || layers[i].PostClose?
    ensures WriteFrom(layers, b, i, w, p) == WriteFrom(layers, b, i + 1, w, p)
  {
  }
}
