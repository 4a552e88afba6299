/** The refresh-panel latch of the EventManager (EventManager.cs). Any
    script may set the latch; the per-frame `Update` consumes it, invoking
    the `onRefreshPanel` subscribers once, so that several requests made
    during one frame are answered by a single refresh. The latch is cleared
    only after the subscribers return: when one throws (the GameManager's
    panel refresh does when nothing is selected), the latch stays set and
    the refresh is attempted again on every frame. */
module Events {

  /** The latch and the number of times `onRefreshPanel` has been raised. */
  datatype Latch = Latch(triggered: bool, refreshes: nat)

  /** The calls that drive the latch. */
  datatype Call = TriggerRefreshPanel | FrameUpdate

  /** `TriggerRefreshPanelEvent`. */
  function AfterTrigger(l: Latch): (r: Latch)
    ensures r.triggered
    ensures r.refreshes == l.refreshes
  {
    l.(triggered := true)
  }

  /** `Update`: refresh once and clear the latch if it is set; otherwise
      nothing happens. */
  function AfterUpdate(l: Latch): (r: Latch)
    ensures !r.triggered
    ensures r.refreshes == if l.triggered then l.refreshes + 1 else l.refreshes
    ensures !l.triggered ==> r == l
  {
    if l.triggered then Latch(false, l.refreshes + 1) else l
  }

  /** `Update` when a subscriber throws: the refresh is invoked, but the
      line that clears the latch is never reached. */
  function AfterThrowingUpdate(l: Latch): (r: Latch)
    ensures r.triggered == l.triggered
    ensures r.refreshes == if l.triggered then l.refreshes + 1 else l.refreshes
  {
    if l.triggered then Latch(true, l.refreshes + 1) else l
  }

  /** The latch after `n` frames whose refresh throws. */
  function ThrowingFrames(l: Latch, n: nat): Latch
    decreases n
  {
    if n == 0 then l else ThrowingFrames(AfterThrowingUpdate(l), n - 1)
  }

  function Step(l: Latch, c: Call): Latch {
    match c
    case TriggerRefreshPanel => AfterTrigger(l)
    case FrameUpdate => AfterUpdate(l)
  }

  /** The latch after a sequence of calls, in order. */
  function Run(l: Latch, calls: seq<Call>): Latch
    decreases |calls|
  {
    if calls == [] then l else Run(Step(l, calls[0]), calls[1..])
  }

  /** `n` requests in a row. */
  function Triggers(n: nat): (calls: seq<Call>)
    ensures |calls| == n
    ensures forall i :: 0 <= i < n ==> calls[i] == TriggerRefreshPanel
  {
    if n == 0 then [] else [TriggerRefreshPanel] + Triggers(n - 1)
  }

  function Count(calls: seq<Call>, c: Call): nat
    decreases |calls|
  {
    if calls == [] then 0 else (if calls[0] == c then 1 else 0) + Count(calls[1..], c)
  }

  /** Any positive number of requests before a frame yields exactly one
      refresh, and the latch is clear again afterwards. */
  lemma {:induction false} TriggersCoalesce(l: Latch, n: nat)
    requires n >= 1
    ensures Run(l, Triggers(n) + [FrameUpdate]) == Latch(false, l.refreshes + 1)
    decreases n
  {
    var calls := Triggers(n) + [FrameUpdate];
    assert calls[0] == TriggerRefreshPanel;
    assert calls[1..] == Triggers(n - 1) + [FrameUpdate];
    assert Run(l, calls) == Run(AfterTrigger(l), calls[1..]);
    if n == 1 {
      var last := calls[1..];
      assert last == [FrameUpdate] && last[1..] == [];
      assert Run(AfterTrigger(l), last) == Run(AfterUpdate(AfterTrigger(l)), []);
    } else {
      TriggersCoalesce(AfterTrigger(l), n - 1);
    }
  }

  /** A frame in which nothing was requested refreshes nothing, however many
      such frames pass. */
  lemma {:induction false} IdleFramesDoNothing(l: Latch, calls: seq<Call>)
    requires !l.triggered
    requires forall i :: 0 <= i < |calls| ==> calls[i] == FrameUpdate
    ensures Run(l, calls) == l
    decreases |calls|
  {
    if calls != [] {
      IdleFramesDoNothing(AfterUpdate(l), calls[1..]);
    }
  }

  /** Over any sequence of calls, refreshes are bounded both by the frames
      (at most one per `Update`) and by the requests (none without one,
      counting a latch already set at the start). */
  lemma {:induction false} RefreshesBounded(l: Latch, calls: seq<Call>)
    ensures Run(l, calls).refreshes <= l.refreshes + Count(calls, FrameUpdate)
    ensures Run(l, calls).refreshes <= l.refreshes + Count(calls, TriggerRefreshPanel) + (if l.triggered then 1 else 0)
    ensures Run(l, calls).triggered ==> Run(l, calls).refreshes < l.refreshes + Count(calls, TriggerRefreshPanel) + (if l.triggered then 1 else 0)
    decreases |calls|
  {
    if calls != [] {
      RefreshesBounded(Step(l, calls[0]), calls[1..]);
    }
  }

  /** A request whose refresh keeps throwing is never consumed: every frame
      invokes the subscribers again and the latch stays set. */
  lemma {:induction false} ThrowingRefreshRepeats(l: Latch, n: nat)
    requires l.triggered
    ensures ThrowingFrames(l, n) == Latch(true, l.refreshes + n)
    decreases n
  {
    if n > 0 {
      ThrowingRefreshRepeats(AfterThrowingUpdate(l), n - 1);
    }
  }

  class EventManager {
    var refreshPanelEventIsTriggered: bool
    /** How many times `onRefreshPanel` has been raised, whether or not a
        subscriber is attached. */
    var refreshInvocations: nat

    function State(): Latch
      reads this
    {
      Latch(refreshPanelEventIsTriggered, refreshInvocations)
    }

    constructor ()
      ensures !refreshPanelEventIsTriggered && refreshInvocations == 0
    {
      refreshPanelEventIsTriggered := false;
      refreshInvocations := 0;
    }

    method TriggerRefreshPanelEvent()
      modifies this
      ensures State() == AfterTrigger(old(State()))
    {
      refreshPanelEventIsTriggered := true;
    }

    /** One frame. The subscribers belong to other scripts; whether one of
        them throws is given as `subscriberThrows`. */
    method Update(subscriberThrows: bool)
      modifies this
      ensures State() == if subscriberThrows then AfterThrowingUpdate(old(State())) else AfterUpdate(old(State()))
    {
      if refreshPanelEventIsTriggered {
        refreshInvocations := refreshInvocations + 1;
        if subscriberThrows {
          return;
        }
        refreshPanelEventIsTriggered := false;
      }
    }
  }
}
