/**
 * `UploadDropzone`: a drag counter (`dragCounter.current`) and a highlight flag (`isDragOver`),
 * driven by the zone's four drag handlers. A drop with files hands them to `onFilesDropped`,
 * which the gallery wires to its upload handler; the model records each such hand-off.
 */
module UploadDropzone {
  import Gallery

  /** The drag events the zone listens to, with what each handler reads from `dataTransfer`. */
  datatype DragEvent =
    | DragEnter(items: nat)               // onDragEnter; `items.length` (0 when absent)
    | DragLeave                           // onDragLeave
    | DragOver                            // onDragOver
    | Drop(files: seq<Gallery.File>)      // onDrop; the dropped files (none when absent)

  /** The zone's state, and the file lists handed to `onFilesDropped` so far. */
  datatype DragState = DragState(counter: int, over: bool, delivered: seq<seq<Gallery.File>>)

  const Idle := DragState(0, false, [])

  /** One handler's effect. */
  function Next(s: DragState, e: DragEvent): (t: DragState)
    ensures e.DragEnter? ==> t.counter == s.counter + 1 && t.over == (s.over || e.items > 0)
    ensures e.DragLeave? ==> t.counter == s.counter - 1 && t.over == (s.over && t.counter != 0)
    ensures e.Drop? ==> t.counter == 0 && !t.over
    ensures e.DragOver? ==> t == s
    ensures t.delivered == if e.Drop? && |e.files| > 0 then s.delivered + [e.files] else s.delivered
  {
    match e
    case DragEnter(items) => DragState(s.counter + 1, if items > 0 then true else s.over, s.delivered)
    case DragLeave =>
      var c := s.counter - 1;
      DragState(c, if c == 0 then false else s.over, s.delivered)
    case DragOver => s
    case Drop(files) => DragState(0, false, if |files| > 0 then s.delivered + [files] else s.delivered)
  }

  /** The state after a sequence of events, handled in order. */
  function Run(s: DragState, es: seq<DragEvent>): (t: DragState)
    ensures |s.delivered| <= |t.delivered| && t.delivered[..|s.delivered|] == s.delivered
    ensures |es| > 0 && es[|es| - 1].Drop? ==> t.counter == 0 && !t.over
    decreases |es|
  {
    if |es| == 0 then s else Next(Run(s, es[..|es| - 1]), es[|es| - 1])
  }

  /** How many events of `es` are drag-enters, and how many drag-leaves. */
  function Enters(es: seq<DragEvent>): nat
    decreases |es|
  {
    if |es| == 0 then 0 else Enters(es[..|es| - 1]) + (if es[|es| - 1].DragEnter? then 1 else 0)
  }

  function Leaves(es: seq<DragEvent>): nat
    decreases |es|
  {
    if |es| == 0 then 0 else Leaves(es[..|es| - 1]) + (if es[|es| - 1].DragLeave? then 1 else 0)
  }

  /** The non-empty file lists of the drops in `es`, in order. */
  function Dropped(es: seq<DragEvent>): (r: seq<seq<Gallery.File>>)
    ensures |r| <= |es|
    ensures forall i | 0 <= i < |r| :: |r[i]| > 0
    decreases |es|
  {
    if |es| == 0 then []
    else
      var e := es[|es| - 1];
      Dropped(es[..|es| - 1]) + if e.Drop? && |e.files| > 0 then [e.files] else []
  }

  predicate NoDrop(es: seq<DragEvent>) {
    forall i | 0 <= i < |es| :: !es[i].Drop?
  }

  /** Between drops the counter is the start value plus the enters minus the leaves; nothing stops it going below 0. */
  lemma {:induction false} CounterCountsCrossings(s: DragState, es: seq<DragEvent>)
    requires NoDrop(es)
    ensures Run(s, es).counter == s.counter + Enters(es) - Leaves(es)
    decreases |es|
  {
    if |es| > 0 {
      var init := es[..|es| - 1];
      assert NoDrop(init) by {
        assert forall i | 0 <= i < |init| :: init[i] == es[i];
      }
      CounterCountsCrossings(s, init);
    }
  }

  /** `onFilesDropped` receives every non-empty drop, once each, in the order of the drops. */
  lemma {:induction false} RunDelivers(s: DragState, es: seq<DragEvent>)
    ensures Run(s, es).delivered == s.delivered + Dropped(es)
    decreases |es|
  {
    if |es| > 0 {
      RunDelivers(s, es[..|es| - 1]);
    }
  }

  /** The highlight goes off only when the counter reaches 0 or on a drop. */
  lemma HighlightClearsOnlyAtZero(s: DragState, e: DragEvent)
    requires s.over && !Next(s, e).over
    ensures Next(s, e).counter == 0
    ensures e.DragLeave? || e.Drop?
  {
  }

  /** The zone's own invariant: the counter is not negative, and the zone is highlighted exactly while it is positive. */
  predicate Consistent(s: DragState) {
    s.counter >= 0 && (s.over <==> s.counter > 0)
  }

  /** Well nested: every enter carries items, and no leave comes when the counter is already 0. */
  ghost predicate Nested(s: DragState, es: seq<DragEvent>) {
    forall i | 0 <= i < |es| ::
      && (es[i].DragEnter? ==> es[i].items > 0)
      && (es[i].DragLeave? ==> Run(s, es[..i]).counter > 0)
  }

  lemma NextConsistent(s: DragState, e: DragEvent)
    requires Consistent(s)
    requires e.DragEnter? ==> e.items > 0
    requires e.DragLeave? ==> s.counter > 0
    ensures Consistent(Next(s, e))
  {
  }

  /** Under well-nested events the highlight tracks the counter, from any consistent start. */
  lemma {:induction false} NestedStaysConsistent(s: DragState, es: seq<DragEvent>)
    requires Consistent(s) && Nested(s, es)
    ensures Consistent(Run(s, es))
    decreases |es|
  {
    if |es| > 0 {
      var n := |es| - 1;
      var init := es[..n];
      assert Nested(s, init) by {
        forall i | 0 <= i < n ensures init[..i] == es[..i] {
        }
      }
      NestedStaysConsistent(s, init);
      assert es[..n] == init;
      NextConsistent(Run(s, init), es[n]);
    }
  }

  /**
   * With no guard below 0, a leave that had no matching enter shifts the counter, and the next
   * enter-leave pair leaves the zone highlighted with no drag in progress.
   */
  lemma StrayLeaveKeepsHighlight()
    ensures Run(Idle, [DragLeave, DragEnter(1), DragLeave]) == DragState(-1, true, [])
  {
    assert [DragLeave, DragEnter(1), DragLeave][..2] == [DragLeave, DragEnter(1)];
    assert [DragLeave, DragEnter(1)][..1] == [DragLeave];
    assert [DragLeave][..0] == [];
  }

  /** The component: its ref and its flag, and the lists handed to `onFilesDropped`. */
  class Dropzone {
    var dragCounter: int
    var isDragOver: bool
    var delivered: seq<seq<Gallery.File>>

    function State(): DragState
      reads this
    {
      DragState(dragCounter, isDragOver, delivered)
    }

    constructor ()
      ensures State() == Idle
    {
      dragCounter := 0;
      isDragOver := false;
      delivered := [];
    }

    /** `handleDrag` (drag-over): only stops the browser's default handling. */
    method HandleDrag()
      modifies this
      ensures State() == old(State()) && State() == Next(old(State()), DragOver)
    {
    }

    /** `handleDragIn`. */
    method HandleDragIn(items: nat)
      modifies this
      ensures dragCounter == old(dragCounter) + 1
      ensures isDragOver == (old(isDragOver) || items > 0)
      ensures delivered == old(delivered)
      ensures State() == Next(old(State()), DragEnter(items))
    {
      dragCounter := dragCounter + 1;
      if items > 0 {
        isDragOver := true;
      }
    }

    /** `handleDragOut`. */
    method HandleDragOut()
      modifies this
      ensures dragCounter == old(dragCounter) - 1
      ensures isDragOver == (old(isDragOver) && dragCounter != 0)
      ensures delivered == old(delivered)
      ensures State() == Next(old(State()), DragLeave)
    {
      dragCounter := dragCounter - 1;
      if dragCounter == 0 {
        isDragOver := false;
      }
    }

    /** `handleDrop`: reset, and hand over the files if there are any. */
    method HandleDrop(files: seq<Gallery.File>)
      modifies this
      ensures dragCounter == 0 && !isDragOver
      ensures delivered == if |files| > 0 then old(delivered) + [files] else old(delivered)
      ensures State() == Next(old(State()), Drop(files))
    {
      isDragOver := false;
      dragCounter := 0;
      if |files| > 0 {
        delivered := delivered + [files];
      }
    }
  }
}
