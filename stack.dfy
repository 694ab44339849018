/** A write stream built from decorators.

    Every decorator of the package wraps exactly one inner `io.WriteCloser` and is
    itself one. A `Stream` holds such a chain as a list of layers, outermost first,
    above a raw stream (a file, a buffer) whose outcomes are given by an oracle.
    `Write` and `Close` enter at layer 0; each layer either answers itself or passes
    the call to the layer below it, exactly as the decorator's closure does.

    The specification of a call is the pair of functions `WriteFrom` and `CloseFrom`
    over the value `World` of the stream; the methods `WriteAt` and `CloseAt` run the
    decorators' loops and are proved to agree with them. */
module Stack {
  import opened Errors

  /** A pre-write callback sees the payload and may veto the write. */
  type PreWriteHook = seq<byte> -> Option<Err>
  /** A pre-close callback may veto the close. */
  type PreCloseHook = () -> Option<Err>
  /** Observe-only callbacks are known by a name; what they observe goes to the log. */
  type HookName = string

  /** One decorator of a chain. `Quota(maxBytes)` is what `WithMaxBytes(maxBytes)`
      adds: a pre-write check and a post-write counter that share one `bytesWritten`. */
  datatype Layer =
    | PreWrite(preHooks: seq<PreWriteHook>)
    | PostWrite(writeObservers: seq<HookName>)
    | PreClose(closeHooks: seq<PreCloseHook>)
    | PostClose(closeObservers: seq<HookName>)
    | Quota(maxBytes: int)
    | Synced

  /** The mutable state a layer owns. */
  datatype Cell = Stateless | Counter(bytesWritten: int) | Latch(isClosed: bool)

  /** The state a layer starts with when it is built. */
  function InitialCell(l: Layer): Cell {
    match l
    case Quota(_) => Counter(0)
    case Synced => Latch(false)
    case _ => Stateless
  }

  predicate Fits(l: Layer, c: Cell) {
    match l
    case Quota(_) => c.Counter?
    case Synced => c.Latch?
    case _ => c.Stateless?
  }

  /** One cell per layer, each of the layer's kind. */
  predicate WellFormed(layers: seq<Layer>, cells: seq<Cell>) {
    |cells| == |layers| && forall k :: 0 <= k < |layers| ==> Fits(layers[k], cells[k])
  }

  /** How a cell may change: a counter never decreases, a latch is never reset. */
  predicate CellGrows(a: Cell, b: Cell) {
    match a
    case Stateless => b.Stateless?
    case Counter(x) => b.Counter? && x <= b.bytesWritten
    case Latch(closed) => b.Latch? && (closed ==> b.isClosed)
  }

  predicate Grows(a: seq<Cell>, b: seq<Cell>) {
    |a| == |b| && forall k :: 0 <= k < |a| ==> CellGrows(a[k], b[k])
  }

  /** What a raw `Write(p)` reports; the byte count is clamped to `|p|`. */
  datatype WriteResult = WriteResult(n: nat, err: Option<Err>)

  /** The raw stream's behaviour: the outcome of its k-th write of `p`, and of its
      k-th close. */
  datatype Behaviour = Behaviour(onWrite: (nat, seq<byte>) -> WriteResult, onClose: nat -> Option<Err>)

  /** The raw stream's state: what it holds, and how often it was written and closed. */
  datatype Sink = Sink(contents: seq<byte>, writes: nat, closes: nat)

  /** What the callbacks saw, in the order they ran. */
  datatype Event =
    | PreWriteRan(layer: nat, hook: nat, payload: seq<byte>)
    | WriteObserved(layer: nat, observer: HookName, payload: seq<byte>, count: nat, result: Option<Err>)
    | PreCloseRan(layer: nat, hook: nat)
    | CloseObserved(layer: nat, observer: HookName, result: Option<Err>)

  datatype World = World(cells: seq<Cell>, sink: Sink, log: seq<Event>)
  datatype Outcome = Outcome(world: World, n: nat, err: Option<Err>)
  datatype Closing = Closing(world: World, err: Option<Err>)

  /** A freshly built chain over a raw stream nothing was written to. */
  function FreshWorld(layers: seq<Layer>): (w: World)
    ensures WellFormed(layers, w.cells)
    ensures forall k :: 0 <= k < |layers| && layers[k].Quota? ==> w.cells[k] == Counter(0)
    ensures forall k :: 0 <= k < |layers| && layers[k].Synced? ==> w.cells[k] == Latch(false)
    ensures w.sink == Sink([], 0, 0) && w.log == []
  {
    World(seq(|layers|, k requires 0 <= k < |layers| => InitialCell(layers[k])), Sink([], 0, 0), [])
  }

  /** A `bytes.Buffer` behind `NewWriteMaybeCloser`: every write is taken whole and
      closing always succeeds. */
  function Buffer(): Behaviour {
    Behaviour((k: nat, p: seq<byte>) => WriteResult(|p|, None), (k: nat) => None)
  }

  /** The index of the first callback that returned an error, or `|verdicts|` when
      every one returned nil. */
  function FirstFailing(verdicts: seq<Option<Err>>): (k: nat)
    ensures k <= |verdicts|
    ensures forall j :: 0 <= j < k ==> verdicts[j].None?
    ensures k < |verdicts| ==> verdicts[k].Some?
  {
    if verdicts == [] then 0
    else if verdicts[0].Some? then 0
    else 1 + FirstFailing(verdicts[1..])
  }

  function WriteVerdicts(hooks: seq<PreWriteHook>, p: seq<byte>): seq<Option<Err>> {
    seq(|hooks|, j requires 0 <= j < |hooks| => hooks[j](p))
  }

  function CloseVerdicts(hooks: seq<PreCloseHook>): seq<Option<Err>> {
    seq(|hooks|, j requires 0 <= j < |hooks| => hooks[j]())
  }

  /** The log entries of the first `count` pre-write hooks of a layer. */
  function PreWriteRuns(layer: nat, count: nat, p: seq<byte>): seq<Event> {
    if count == 0 then [] else PreWriteRuns(layer, count - 1, p) + [PreWriteRan(layer, count - 1, p)]
  }

  function PreCloseRuns(layer: nat, count: nat): seq<Event> {
    if count == 0 then [] else PreCloseRuns(layer, count - 1) + [PreCloseRan(layer, count - 1)]
  }

  /** The log entries of the first `count` post-write observers of a layer. */
  function WriteObservations(layer: nat, observers: seq<HookName>, count: nat, p: seq<byte>, n: nat, err: Option<Err>): seq<Event>
    requires count <= |observers|
  {
    if count == 0 then []
    else WriteObservations(layer, observers, count - 1, p, n, err) + [WriteObserved(layer, observers[count - 1], p, n, err)]
  }

  function CloseObservations(layer: nat, observers: seq<HookName>, count: nat, err: Option<Err>): seq<Event>
    requires count <= |observers|
  {
    if count == 0 then []
    else CloseObservations(layer, observers, count - 1, err) + [CloseObserved(layer, observers[count - 1], err)]
  }

  /** What `Write(p)` does when it reaches layer `i` of the chain (`i == |layers|` is
      the raw stream). Whatever the layers, the raw stream receives exactly the first
      `n` bytes of the payload, the layers above `i` are untouched, counters only grow,
      latches are never reset and the callbacks' log is only appended to. */
  function WriteFrom(layers: seq<Layer>, b: Behaviour, i: nat, w: World, p: seq<byte>): (r: Outcome)
    requires i <= |layers| && WellFormed(layers, w.cells)
    ensures WellFormed(layers, r.world.cells)
    ensures forall k :: 0 <= k < i ==> r.world.cells[k] == w.cells[k]
    ensures Grows(w.cells, r.world.cells)
    ensures r.n <= |p|
    ensures r.world.sink.contents == w.sink.contents + p[..r.n]
    ensures w.log <= r.world.log
    decreases |layers| - i
  {
    if i == |layers| then
      var x := b.onWrite(w.sink.writes, p);
      var n := if x.n <= |p| then x.n else |p|;
      Outcome(w.(sink := Sink(w.sink.contents + p[..n], w.sink.writes + 1, w.sink.closes)), n, x.err)
    else
      match layers[i]
      case PreWrite(hooks) =>
        var k := FirstFailing(WriteVerdicts(hooks, p));
        if k < |hooks| then
          Outcome(w.(log := w.log + PreWriteRuns(i, k + 1, p)), 0, hooks[k](p))
        else
          WriteFrom(layers, b, i + 1, w.(log := w.log + PreWriteRuns(i, |hooks|, p)), p)
      case PostWrite(observers) =>
        var o := WriteFrom(layers, b, i + 1, w, p);
        Outcome(o.world.(log := o.world.log + WriteObservations(i, observers, |observers|, p, o.n, o.err)), o.n, o.err)
      case PreClose(_) =>
        WriteFrom(layers, b, i + 1, w, p)
      case PostClose(_) =>
        WriteFrom(layers, b, i + 1, w, p)
      case Quota(maxBytes) =>
        var counted := w.cells[i].bytesWritten;
        if counted + |p| > maxBytes then
          var c := CloseFrom(layers, b, i + 1, w);
          Outcome(c.world, 0, Some(if c.err.Some? then Wrapped(c.err.value) else TooLargeWrite))
        else
          var o := WriteFrom(layers, b, i + 1, w, p);
          Outcome(o.world.(cells := o.world.cells[i := Counter(counted + o.n)]), o.n, o.err)
      case Synced =>
        if w.cells[i].isClosed then Outcome(w, 0, Some(AlreadyClosed))
        else WriteFrom(layers, b, i + 1, w, p)
  }

  /** What `Close()` does when it reaches layer `i`. It never changes what the raw
      stream holds. */
  function CloseFrom(layers: seq<Layer>, b: Behaviour, i: nat, w: World): (r: Closing)
    requires i <= |layers| && WellFormed(layers, w.cells)
    ensures WellFormed(layers, r.world.cells)
    ensures forall k :: 0 <= k < i ==> r.world.cells[k] == w.cells[k]
    ensures Grows(w.cells, r.world.cells)
    ensures forall k :: 0 <= k < |layers| && w.cells[k].Counter? ==> r.world.cells[k] == w.cells[k]
    ensures r.world.sink.contents == w.sink.contents
    ensures w.log <= r.world.log
    decreases |layers| - i
  {
    if i == |layers| then
      Closing(w.(sink := w.sink.(closes := w.sink.closes + 1)), b.onClose(w.sink.closes))
    else
      match layers[i]
      case PreWrite(_) =>
        CloseFrom(layers, b, i + 1, w)
      case PostWrite(_) =>
        CloseFrom(layers, b, i + 1, w)
      case PreClose(hooks) =>
        var k := FirstFailing(CloseVerdicts(hooks));
        if k < |hooks| then
          Closing(w.(log := w.log + PreCloseRuns(i, k + 1)), hooks[k]())
        else
          CloseFrom(layers, b, i + 1, w.(log := w.log + PreCloseRuns(i, |hooks|)))
      case PostClose(observers) =>
        var c := CloseFrom(layers, b, i + 1, w);
        Closing(c.world.(log := c.world.log + CloseObservations(i, observers, |observers|, c.err)), c.err)
      case Quota(_) =>
        CloseFrom(layers, b, i + 1, w)
      case Synced =>
        if w.cells[i].isClosed then Closing(w, Some(AlreadyClosed))
        else CloseFrom(layers, b, i + 1, w.(cells := w.cells[i := Latch(true)]))
  }

  /** A chain of decorators over one raw stream. */
  class Stream {
    const layers: seq<Layer>
    const raw: Behaviour
    var cells: seq<Cell>
    var sink: Sink
    ghost var log: seq<Event>

    ghost predicate Valid()
      reads this
    {
      WellFormed(layers, cells)
    }

    ghost function State(): World
      reads this
    {
      World(cells, sink, log)
    }

    /** A raw stream with no decorator. */
    constructor (raw: Behaviour)
      ensures Valid() && layers == [] && this.raw == raw
      ensures State() == World([], Sink([], 0, 0), [])
    {
      layers, this.raw := [], raw;
      cells, sink, log := [], Sink([], 0, 0), [];
    }

    /** `layer` built around `inner`, which from now on only this stream uses. */
    constructor Wrap(layer: Layer, inner: Stream)
      requires inner.Valid()
      ensures Valid() && layers == [layer] + inner.layers && raw == inner.raw
      ensures State() == World([InitialCell(layer)] + inner.cells, inner.sink, inner.log)
    {
      layers, raw := [layer] + inner.layers, inner.raw;
      cells, sink, log := [InitialCell(layer)] + inner.cells, inner.sink, inner.log;
    }

    method Write(p: seq<byte>) returns (n: nat, err: Option<Err>)
      requires Valid()
      modifies this
      ensures Valid()
      ensures Outcome(State(), n, err) == WriteFrom(layers, raw, 0, old(State()), p)
    {
      n, err := WriteAt(0, p);
    }

    method Close() returns (err: Option<Err>)
      requires Valid()
      modifies this
      ensures Valid()
      ensures Closing(State(), err) == CloseFrom(layers, raw, 0, old(State()))
    {
      err := CloseAt(0);
    }

    /** `Write(p)` as layer `i` runs it. */
    method WriteAt(i: nat, p: seq<byte>) returns (n: nat, err: Option<Err>)
      requires Valid() && i <= |layers|
      modifies this
      ensures Valid()
      ensures Outcome(State(), n, err) == WriteFrom(layers, raw, i, old(State()), p)
      decreases |layers| - i, 1
    {
      if i == |layers| {
        var x := raw.onWrite(sink.writes, p);
        n := if x.n <= |p| then x.n else |p|;
        err := x.err;
        sink := Sink(sink.contents + p[..n], sink.writes + 1, sink.closes);
        return;
      }
      match layers[i]
      case PreWrite(hooks) =>
        n, err := WritePreHooked(i, hooks, p);
      case PostWrite(observers) =>
        n, err := WritePostHooked(i, observers, p);
      case PreClose(_) =>
        n, err := WriteAt(i + 1, p);
      case PostClose(_) =>
        n, err := WriteAt(i + 1, p);
      case Quota(maxBytes) =>
        n, err := WriteLimited(i, maxBytes, p);
      case Synced =>
        if cells[i].isClosed {
          return 0, Some(AlreadyClosed);
        }
        n, err := WriteAt(i + 1, p);
    }

    /** The loop of `NewPreWriteCallbacks`. */
    method WritePreHooked(i: nat, hooks: seq<PreWriteHook>, p: seq<byte>) returns (n: nat, err: Option<Err>)
      requires Valid() && i < |layers| && layers[i] == PreWrite(hooks)
      modifies this
      ensures Valid()
      ensures Outcome(State(), n, err) == WriteFrom(layers, raw, i, old(State()), p)
      decreases |layers| - i, 0
    {
      ghost var verdicts := WriteVerdicts(hooks, p);
      var j := 0;
      while j < |hooks|
        invariant 0 <= j <= |hooks|
        invariant forall q :: 0 <= q < j ==> verdicts[q].None?
        invariant cells == old(cells) && sink == old(sink)
        invariant log == old(log) + PreWriteRuns(i, j, p)
      {
        log := log + [PreWriteRan(i, j, p)];
        var verdict := hooks[j](p);
        if verdict.Some? {
          assert verdicts[j] == verdict;
          assert FirstFailing(verdicts) == j;
          return 0, verdict;
        }
        j := j + 1;
      }
      assert FirstFailing(verdicts) == |hooks|;
      n, err := WriteAt(i + 1, p);
    }

    /** The loop of `NewPostWriteCallbacks`. */
    method WritePostHooked(i: nat, observers: seq<HookName>, p: seq<byte>) returns (n: nat, err: Option<Err>)
      requires Valid() && i < |layers| && layers[i] == PostWrite(observers)
      modifies this
      ensures Valid()
      ensures Outcome(State(), n, err) == WriteFrom(layers, raw, i, old(State()), p)
      decreases |layers| - i, 0
    {
      n, err := WriteAt(i + 1, p);
      ghost var written, cellsAfter, sinkAfter := log, cells, sink;
      for q := 0 to |observers|
        invariant cells == cellsAfter && sink == sinkAfter
        invariant log == written + WriteObservations(i, observers, q, p, n, err)
      {
        log := log + [WriteObserved(i, observers[q], p, n, err)];
      }
    }

    /** What `WithMaxBytes(maxBytes)` adds: the pre-write check, then the
        post-write counter. */
    method WriteLimited(i: nat, maxBytes: int, p: seq<byte>) returns (n: nat, err: Option<Err>)
      requires Valid() && i < |layers| && layers[i] == Quota(maxBytes)
      modifies this
      ensures Valid()
      ensures Outcome(State(), n, err) == WriteFrom(layers, raw, i, old(State()), p)
      decreases |layers| - i, 0
    {
      var verdict: Option<Err> := None;
      if cells[i].bytesWritten + |p| > maxBytes {
        var closeErr := CloseAt(i + 1);
        verdict := Some(if closeErr.Some? then Wrapped(closeErr.value) else TooLargeWrite);
      }
      if verdict.Some? {
        n, err := 0, verdict;
      } else {
        n, err := WriteAt(i + 1, p);
      }
      cells := cells[i := Counter(cells[i].bytesWritten + n)];
    }

    /** `Close()` as layer `i` runs it. */
    method CloseAt(i: nat) returns (err: Option<Err>)
      requires Valid() && i <= |layers|
      modifies this
      ensures Valid()
      ensures Closing(State(), err) == CloseFrom(layers, raw, i, old(State()))
      decreases |layers| - i, 1
    {
      if i == |layers| {
        err := raw.onClose(sink.closes);
        sink := sink.(closes := sink.closes + 1);
        return;
      }
      match layers[i]
      case PreWrite(_) =>
        err := CloseAt(i + 1);
      case PostWrite(_) =>
        err := CloseAt(i + 1);
      case PreClose(hooks) =>
        err := ClosePreHooked(i, hooks);
      case PostClose(observers) =>
        err := ClosePostHooked(i, observers);
      case Quota(_) =>
        err := CloseAt(i + 1);
      case Synced =>
        if cells[i].isClosed {
          return Some(AlreadyClosed);
        }
        cells := cells[i := Latch(true)];
        err := CloseAt(i + 1);
    }

    /** The loop of `NewPreCloseCallbacks`. */
    method ClosePreHooked(i: nat, hooks: seq<PreCloseHook>) returns (err: Option<Err>)
      requires Valid() && i < |layers| && layers[i] == PreClose(hooks)
      modifies this
      ensures Valid()
      ensures Closing(State(), err) == CloseFrom(layers, raw, i, old(State()))
      decreases |layers| - i, 0
    {
      ghost var verdicts := CloseVerdicts(hooks);
      var j := 0;
      while j < |hooks|
        invariant 0 <= j <= |hooks|
        invariant forall q :: 0 <= q < j ==> verdicts[q].None?
        invariant cells == old(cells) && sink == old(sink)
        invariant log == old(log) + PreCloseRuns(i, j)
      {
        log := log + [PreCloseRan(i, j)];
        var verdict := hooks[j]();
        if verdict.Some? {
          assert verdicts[j] == verdict;
          assert FirstFailing(verdicts) == j;
          return verdict;
        }
        j := j + 1;
      }
      assert FirstFailing(verdicts) == |hooks|;
      err := CloseAt(i + 1);
    }

    /** The loop of `NewPostCloseCallbacks`. */
    method ClosePostHooked(i: nat, observers: seq<HookName>) returns (err: Option<Err>)
      requires Valid() && i < |layers| && layers[i] == PostClose(observers)
      modifies this
      ensures Valid()
      ensures Closing(State(), err) == CloseFrom(layers, raw, i, old(State()))
      decreases |layers| - i, 0
    {
      err := CloseAt(i + 1);
      ghost var closed, cellsAfter, sinkAfter := log, cells, sink;
      for q := 0 to |observers|
        invariant cells == cellsAfter && sink == sinkAfter
        invariant log == closed + CloseObservations(i, observers, q, err)
      {
        log := log + [CloseObserved(i, observers[q], err)];
      }
    }
  }
}
