/** The scroll-threshold hook (hooks/useScroll.ts).

    A scroll event requests an animation frame unless one is already
    pending (the effect's local `ticking` flag); the frame reads the scroll
    offset, publishes `offset > threshold` only if it differs from the
    current value, and clears `ticking`. The browser is abstracted into three
    events: a scroll notification, a frame callback carrying the offset read
    in it, and the effect's cleanup on unmount. */
module UseScroll {

  /** The threshold when the caller gives none. */
  const DefaultThreshold: int := 50

  /** `isScrolled` (the hook's state), `ticking` (a frame is pending), whether
      the scroll listener is registered (exactly while the component is
      mounted), and three counters of what the browser saw: frames requested,
      frame callbacks run, and state changes published. */
  datatype ScrollState = ScrollState(isScrolled: bool, ticking: bool, listening: bool,
                               requested: nat, frames: nat, updates: nat)

  /** Every requested frame has run, except the one pending while `ticking`. */
  predicate Inv(s: ScrollState)
  {
    s.requested == s.frames + (if s.ticking then 1 else 0)
  }

  /** The state updater the frame passes to `setIsScrolled`: keep the previous
      value unless it differs. Whatever the previous value, the result is the
      new reading, and it differs from the previous value only when the reading does. */
  function Updater(prev: bool, scrolled: bool): (r: bool)
    ensures r == scrolled
    ensures r != prev <==> prev != scrolled
  {
    if prev != scrolled then scrolled else prev
  }

  /** `handleScroll`: request a frame unless one is pending. */
  function HandleScroll(s: ScrollState): (r: ScrollState)
    requires Inv(s)
    ensures Inv(r) && r.ticking
    ensures s.ticking ==> r == s
    ensures !s.ticking ==> r == s.(ticking := true, requested := s.requested + 1)
  {
    if !s.ticking then s.(ticking := true, requested := s.requested + 1) else s
  }

  /** Mounting: the state starts false, the effect runs one check (which
      requests a frame) and then registers the listener. */
  function Mount(): (s: ScrollState)
    ensures Inv(s) && !s.isScrolled && s.ticking && s.listening
    ensures s.requested == 1 && s.frames == 0 && s.updates == 0
  {
    HandleScroll(ScrollState(false, false, false, 0, 0, 0)).(listening := true)
  }

  /** A scroll notification reaches `handleScroll` only while the listener is registered. */
  function OnScroll(s: ScrollState): (r: ScrollState)
    requires Inv(s)
    ensures Inv(r)
    ensures !s.listening ==> r == s
    ensures s.listening ==> r == HandleScroll(s)
    ensures r.requested <= s.requested + 1
  {
    if s.listening then HandleScroll(s) else s
  }

  /** The pending frame runs, reading offset `scrollY`. After unmounting,
      the state update is discarded, but `ticking` is still cleared. */
  function OnFrame(s: ScrollState, threshold: int, scrollY: int): (r: ScrollState)
    requires Inv(s)
    ensures Inv(r) && !r.ticking && r.listening == s.listening && r.requested == s.requested
    ensures !s.ticking ==> r == s
    ensures s.ticking && s.listening ==> r.isScrolled == (scrollY > threshold)
    ensures !s.listening ==> r.isScrolled == s.isScrolled
    ensures r.updates == s.updates + (if r.isScrolled != s.isScrolled then 1 else 0)
  {
    if !s.ticking then s
    else
      var scrolled := scrollY > threshold;
      var next := if s.listening then Updater(s.isScrolled, scrolled) else s.isScrolled;
      s.(isScrolled := next, ticking := false, frames := s.frames + 1,
         updates := s.updates + (if next != s.isScrolled then 1 else 0))
  }

  /** With the default threshold, the first frame after mounting reports an
      offset of exactly 50 as not scrolled and 51 as scrolled: the
      comparison is strict. */
  lemma DefaultThresholdBoundary()
    ensures !OnFrame(Mount(), DefaultThreshold, 50).isScrolled
    ensures OnFrame(Mount(), DefaultThreshold, 51).isScrolled
    ensures OnFrame(Mount(), DefaultThreshold, 51).updates == 1
  {
  }

  /** The effect's cleanup: the listener is removed. A pending frame is not cancelled. */
  function Cleanup(s: ScrollState): (r: ScrollState)
    requires Inv(s)
    ensures Inv(r) && !r.listening && r.ticking == s.ticking && r.isScrolled == s.isScrolled
  {
    s.(listening := false)
  }

  datatype Event = ScrollEvent | Frame(scrollY: int) | Unmount

  function Apply(s: ScrollState, threshold: int, e: Event): (r: ScrollState)
    requires Inv(s)
    ensures Inv(r)
  {
    match e
    case ScrollEvent => OnScroll(s)
    case Frame(y) => OnFrame(s, threshold, y)
    case Unmount => Cleanup(s)
  }

  function Replay(s: ScrollState, threshold: int, events: seq<Event>): (r: ScrollState)
    requires Inv(s)
    ensures Inv(r)
    decreases |events|
  {
    if events == [] then s else Replay(Apply(s, threshold, events[0]), threshold, events[1..])
  }

  /** Counts the scroll notifications in an event sequence. */
  function Scrolls(events: seq<Event>): nat
  {
    if events == [] then 0 else (if events[0] == ScrollEvent then 1 else 0) + Scrolls(events[1..])
  }

  /** Counts the frame events in an event sequence. */
  function Frames(events: seq<Event>): nat
  {
    if events == [] then 0 else (if events[0].Frame? then 1 else 0) + Frames(events[1..])
  }

  /** Coalescing: a burst of scroll notifications with no frame in between
      requests at most one frame, and none at all if one was already pending. */
  lemma {:induction false} Burst(s: ScrollState, threshold: int, events: seq<Event>)
    requires Inv(s) && Frames(events) == 0
    ensures Replay(s, threshold, events).requested <= s.requested + 1
    ensures s.ticking ==> Replay(s, threshold, events).requested == s.requested
    ensures Scrolls(events) == 0 ==> Replay(s, threshold, events).requested == s.requested
    decreases |events|
  {
    if events != [] {
      var s1 := Apply(s, threshold, events[0]);
      Burst(s1, threshold, events[1..]);
      if !s.ticking && s1.requested == s.requested + 1 {
        BurstPending(s1, threshold, events[1..]);
      }
    }
  }

  /** Once a frame is pending, notifications request nothing more until it runs. */
  lemma {:induction false} BurstPending(s: ScrollState, threshold: int, events: seq<Event>)
    requires Inv(s) && s.ticking && Frames(events) == 0
    ensures Replay(s, threshold, events).requested == s.requested
    ensures Replay(s, threshold, events).ticking
    decreases |events|
  {
    if events != [] {
      BurstPending(Apply(s, threshold, events[0]), threshold, events[1..]);
    }
  }

  /** Over any sequence of events, frames are requested at most once per
      scroll notification plus the one at mount, and the state changes at
      most once per frame that ran. */
  lemma {:induction false} Bounded(s: ScrollState, threshold: int, events: seq<Event>)
    requires Inv(s)
    ensures Replay(s, threshold, events).requested <= s.requested + Scrolls(events)
    ensures Replay(s, threshold, events).updates - s.updates <= Replay(s, threshold, events).frames - s.frames
    ensures Replay(s, threshold, events).frames >= s.frames
    decreases |events|
  {
    if events != [] {
      Bounded(Apply(s, threshold, events[0]), threshold, events[1..]);
    }
  }

  /** A burst of notifications on a mounted page followed by the frame it
      requested leaves `isScrolled` equal to `offset > threshold` for the
      offset read in that frame. */
  lemma BurstThenFrame(s: ScrollState, threshold: int, burst: seq<Event>, y: int)
    requires Inv(s) && s.listening && |burst| > 0
    requires forall i :: 0 <= i < |burst| ==> burst[i] == ScrollEvent
    ensures var r := Replay(s, threshold, burst + [Frame(y)]);
      r.isScrolled == (y > threshold) && !r.ticking && r.listening
  {
    ScrollsKeepListening(s, threshold, burst);
    ReplayAppend(s, threshold, burst, [Frame(y)]);
    var mid := Replay(s, threshold, burst);
    assert Replay(s, threshold, burst + [Frame(y)]) == Replay(mid, threshold, [Frame(y)]);
    assert Replay(mid, threshold, [Frame(y)]) == Replay(OnFrame(mid, threshold, y), threshold, []);
  }

  /** Scroll notifications alone keep the listener and leave a frame pending. */
  lemma {:induction false} ScrollsKeepListening(s: ScrollState, threshold: int, burst: seq<Event>)
    requires Inv(s) && s.listening && |burst| > 0
    requires forall i :: 0 <= i < |burst| ==> burst[i] == ScrollEvent
    ensures Replay(s, threshold, burst).listening && Replay(s, threshold, burst).ticking
    decreases |burst|
  {
    var s1 := OnScroll(s);
    if |burst| > 1 {
      ScrollsKeepListening(s1, threshold, burst[1..]);
    } else {
      assert Replay(s1, threshold, burst[1..]) == s1;
    }
  }

  lemma {:induction false} ReplayAppend(s: ScrollState, threshold: int, a: seq<Event>, b: seq<Event>)
    requires Inv(s)
    ensures Replay(s, threshold, a + b) == Replay(Replay(s, threshold, a), threshold, b)
    decreases |a|
  {
    if a != [] {
      assert (a + b)[0] == a[0] && (a + b)[1..] == a[1..] + b;
      ReplayAppend(Apply(s, threshold, a[0]), threshold, a[1..], b);
    } else {
      assert a + b == b;
    }
  }

  /** After cleanup nothing changes what the hook reports, and no frame is requested. */
  lemma {:induction false} Teardown(s: ScrollState, threshold: int, events: seq<Event>)
    requires Inv(s) && !s.listening
    ensures Replay(s, threshold, events).isScrolled == s.isScrolled
    ensures Replay(s, threshold, events).requested == s.requested
    ensures Replay(s, threshold, events).updates == s.updates
    decreases |events|
  {
    if events != [] {
      Teardown(Apply(s, threshold, events[0]), threshold, events[1..]);
    }
  }

  // ---------------------------------------------------------------------------
  // The hook as it runs.

  class ScrollDetector {
    const threshold: int
    var isScrolled: bool
    var ticking: bool
    var listening: bool
    ghost var requested: nat
    ghost var frames: nat
    ghost var updates: nat

    ghost function Snapshot(): ScrollState
      reads this
    {
      ScrollState(isScrolled, ticking, listening, requested, frames, updates)
    }

    ghost predicate Valid()
      reads this
    {
      Inv(Snapshot())
    }

    /** Mounting with the given threshold (50 when the caller gives none). */
    constructor (threshold: int)
      ensures Valid() && this.threshold == threshold && Snapshot() == Mount()
    {
      this.threshold := threshold;
      isScrolled := false;
      ticking := false;
      requested, frames, updates := 0, 0, 0;
      listening := false;
      new;
      // the check at mount, then the listener
      ticking := true;
      requested := 1;
      listening := true;
    }

    /** A scroll notification from the browser. */
    method Scroll()
      requires Valid()
      modifies this
      ensures Valid() && Snapshot() == OnScroll(old(Snapshot()))
    {
      if listening && !ticking {
        ticking := true;
        requested := requested + 1;
      }
    }

    /** The pending frame runs and reads offset `scrollY`; nothing happens when no frame is pending. */
    method FrameFires(scrollY: int) returns (ran: bool)
      requires Valid()
      modifies this
      ensures Valid() && ran == old(ticking)
      ensures Snapshot() == OnFrame(old(Snapshot()), threshold, scrollY)
      ensures ran && listening ==> isScrolled == (scrollY > threshold)
    {
      if !ticking {
        return false;
      }
      var scrolled := scrollY > threshold;
      if listening {
        var next := Updater(isScrolled, scrolled);
        if next != isScrolled {
          isScrolled := next;
          updates := updates + 1;
        }
      }
      ticking := false;
      frames := frames + 1;
      ran := true;
    }

    /** The effect's cleanup. */
    method Unmount()
      requires Valid()
      modifies this
      ensures Valid() && Snapshot() == Cleanup(old(Snapshot()))
    {
      listening := false;
    }
  }
}
