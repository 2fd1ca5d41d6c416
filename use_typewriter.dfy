/** The typewriter hook (hooks/useTypewriter.ts).

    Same three state cells as the component, different step rules: every
    tick first rewrites the text with `substring` (which clamps, so typing on
    a complete word leaves it unchanged and deleting on empty text leaves it
    empty), then, on a complete word, arms a separate pause timeout, or, on
    empty text while deleting, moves to the next word. The effect re-runs,
    and re-arms the tick, only when one of the three cells actually changed;
    cleanup cancels the tick timeout but not the pause timeout. */
module UseTypewriter {
  import opened Timing
  import JsString
  import TypewriterText

  /** The three state cells, the two timeouts, and whether the component is mounted. */
  datatype Hook = Hook(currentWordIndex: nat, displayText: string, isDeleting: bool,
                       tickPending: bool, pausePending: bool, mounted: bool)

  /** Index in range and visible text a prefix of the current word. */
  predicate Consistent(c: Config, h: Hook)
  {
    |c.words| > 0 && h.currentWordIndex < |c.words| && h.displayText <= c.words[h.currentWordIndex]
  }

  /** The invariant between events: while mounted exactly one timeout is
      pending, after unmounting no tick is, and a pending pause was armed on a
      complete word while typing. */
  predicate Inv(c: Config, h: Hook)
  {
    && Consistent(c, h)
    && (h.mounted ==> h.tickPending != h.pausePending)
    && (!h.mounted ==> !h.tickPending)
    && (h.pausePending ==> !h.isDeleting && h.displayText == c.words[h.currentWordIndex])
  }

  /** Mounting: the initial state, and the first effect run arms a tick. */
  function Mount(c: Config): (h: Hook)
    requires |c.words| > 0
    ensures Inv(c, h) && h.mounted && h.tickPending && !h.pausePending
    ensures h.currentWordIndex == 0 && h.displayText == "" && !h.isDeleting
  {
    Hook(0, "", false, true, false, true)
  }

  /** The tick's delay: `deletingSpeed` while deleting, `typingSpeed` otherwise. */
  function TickDelay(c: Config, h: Hook): (d: nat)
    ensures h.isDeleting ==> d == c.deletingSpeed
    ensures !h.isDeleting ==> d == c.typingSpeed
  {
    if h.isDeleting then c.deletingSpeed else c.typingSpeed
  }

  /** What `handleType` sets: the three cells, and whether it arms the pause timeout. */
  datatype Outcome = Outcome(currentWordIndex: nat, displayText: string, isDeleting: bool, startsPause: bool)

  function HandleType(c: Config, h: Hook): (o: Outcome)
    requires Consistent(c, h)
    ensures o.currentWordIndex < |c.words| && o.displayText <= c.words[o.currentWordIndex]
    ensures o.startsPause <==> !h.isDeleting && h.displayText == c.words[h.currentWordIndex]
    ensures o.startsPause ==> o == Outcome(h.currentWordIndex, h.displayText, false, true)
    ensures o.currentWordIndex != h.currentWordIndex ==> o.displayText == ""
  {
    var word := c.words[h.currentWordIndex];
    var text := if h.isDeleting then JsString.Substring(h.displayText, 0, |h.displayText| - 1)
                else JsString.Substring(word, 0, |h.displayText| + 1);
    if !h.isDeleting && h.displayText == word then
      Outcome(h.currentWordIndex, text, h.isDeleting, true)
    else if h.isDeleting && h.displayText == "" then
      Outcome((h.currentWordIndex + 1) % |c.words|, text, false, false)
    else
      Outcome(h.currentWordIndex, text, h.isDeleting, false)
  }

  /** The tick timeout fires (when one is pending): `handleType` runs, and
      the effect re-arms the tick only if a cell changed. */
  function FireTick(c: Config, h: Hook): (r: Hook)
    requires Inv(c, h)
    ensures Inv(c, r) && r.mounted == h.mounted
    ensures !h.tickPending ==> r == h
  {
    if !h.tickPending then h
    else
      var o := HandleType(c, h);
      var changed := o.currentWordIndex != h.currentWordIndex || o.displayText != h.displayText
                     || o.isDeleting != h.isDeleting;
      JsString.SubstringExtends(c.words[h.currentWordIndex], |h.displayText|);
      Hook(o.currentWordIndex, o.displayText, o.isDeleting, changed,
           h.pausePending || o.startsPause, h.mounted)
  }

  /** The pause timeout fires (when one is pending). Once unmounted its state
      update is discarded; otherwise it starts deleting, a change, so the
      effect arms a tick. */
  function FirePause(c: Config, h: Hook): (r: Hook)
    requires Inv(c, h)
    ensures Inv(c, r) && r.mounted == h.mounted && !r.pausePending
    ensures !h.pausePending ==> r == h
  {
    if !h.pausePending then h
    else if !h.mounted then h.(pausePending := false)
    else
      var changed := !h.isDeleting;
      h.(isDeleting := true, pausePending := false, tickPending := h.tickPending || changed)
  }

  /** The effect's cleanup on unmount: the tick is cancelled, the pause is not tracked. */
  function Cleanup(h: Hook): (r: Hook)
    ensures !r.mounted && !r.tickPending && r.pausePending == h.pausePending
    ensures (r.currentWordIndex, r.displayText, r.isDeleting) == (h.currentWordIndex, h.displayText, h.isDeleting)
  {
    h.(mounted := false, tickPending := false)
  }

  /** The next event while mounted: whichever timeout is pending fires. */
  function Next(c: Config, h: Hook): (r: Hook)
    requires Inv(c, h)
    ensures Inv(c, r)
  {
    if h.tickPending then FireTick(c, h) else FirePause(c, h)
  }

  /** The delay before the next event. */
  function NextDelay(c: Config, h: Hook): (d: nat)
    ensures h.tickPending ==> d == TickDelay(c, h)
    ensures !h.tickPending ==> d == c.pauseTime
    ensures d == c.typingSpeed || d == c.deletingSpeed || d == c.pauseTime
  {
    if h.tickPending then TickDelay(c, h) else c.pauseTime
  }

  function Run(c: Config, h: Hook, k: nat): (r: Hook)
    requires Inv(c, h)
    ensures Inv(c, r)
    decreases k
  {
    if k == 0 then h else Run(c, Next(c, h), k - 1)
  }

  function Elapsed(c: Config, h: Hook, k: nat): nat
    requires Inv(c, h)
    decreases k
  {
    if k == 0 then 0 else NextDelay(c, h) + Elapsed(c, Next(c, h), k - 1)
  }

  /** A mounted hook with its tick pending, showing text t at index i. */
  function Ticking(i: nat, t: string, deleting: bool): Hook
  {
    Hook(i, t, deleting, true, false, true)
  }

  // ---------------------------------------------------------------------------
  // Single events

  /** Typing a word that is not complete appends its next character. */
  lemma TypingTick(c: Config, h: Hook)
    requires Inv(c, h) && h.tickPending && !h.isDeleting
    requires |h.displayText| < |c.words[h.currentWordIndex]|
    ensures Next(c, h) == h.(displayText := c.words[h.currentWordIndex][..|h.displayText| + 1])
  {
    JsString.SubstringExtends(c.words[h.currentWordIndex], |h.displayText|);
  }

  /** On a complete word `substring` clamps: the text stays as it is, the
      tick is not re-armed, and the pause timeout is armed instead. */
  lemma CompleteWordTick(c: Config, h: Hook)
    requires Inv(c, h) && h.tickPending && !h.isDeleting
    requires h.displayText == c.words[h.currentWordIndex]
    ensures Next(c, h) == h.(tickPending := false, pausePending := true)
  {
    JsString.SubstringExtends(c.words[h.currentWordIndex], |h.displayText|);
  }

  /** The pause timeout switches a mounted hook to deleting and re-arms the tick. */
  lemma PauseEvent(c: Config, h: Hook)
    requires Inv(c, h) && h.mounted && h.pausePending
    ensures Next(c, h) == h.(isDeleting := true, pausePending := false, tickPending := true)
    ensures NextDelay(c, h) == c.pauseTime
  {
  }

  /** Deleting drops the last character; on empty text it stays empty and
      the hook moves to the next word. */
  lemma DeletingTick(c: Config, h: Hook)
    requires Inv(c, h) && h.tickPending && h.isDeleting
    ensures h.displayText != "" ==> Next(c, h) == h.(displayText := h.displayText[..|h.displayText| - 1])
    ensures h.displayText == "" ==>
      Next(c, h) == h.(isDeleting := false,
                       currentWordIndex := if h.currentWordIndex + 1 == |c.words| then 0 else h.currentWordIndex + 1)
  {
  }

  // ---------------------------------------------------------------------------
  // Runs of events

  lemma {:induction false} RunAdd(c: Config, h: Hook, a: nat, b: nat)
    requires Inv(c, h)
    ensures Run(c, h, a + b) == Run(c, Run(c, h, a), b)
    ensures Elapsed(c, h, a + b) == Elapsed(c, h, a) + Elapsed(c, Run(c, h, a), b)
    decreases a
  {
    if a > 0 {
      var next := Next(c, h);
      assert Run(c, h, a + b) == Run(c, next, (a - 1) + b);
      assert Run(c, h, a) == Run(c, next, a - 1);
      assert Elapsed(c, h, a + b) == NextDelay(c, h) + Elapsed(c, next, (a - 1) + b);
      RunAdd(c, next, a - 1, b);
    } else {
      assert Run(c, h, a) == h;
    }
  }

  lemma RunOne(c: Config, h: Hook)
    requires Inv(c, h)
    ensures Run(c, h, 1) == Next(c, h)
    ensures Elapsed(c, h, 1) == NextDelay(c, h)
  {
    assert Run(c, h, 1) == Run(c, Next(c, h), 0);
    assert Elapsed(c, h, 1) == NextDelay(c, h) + Elapsed(c, Next(c, h), 0);
  }

  /** Within a typing run the text grows by one character of the word per tick. */
  lemma {:induction false} TypingRun(c: Config, i: nat, t: string, k: nat)
    requires Inv(c, Ticking(i, t, false)) && |t| + k <= |c.words[i]|
    ensures Run(c, Ticking(i, t, false), k) == Ticking(i, c.words[i][..|t| + k], false)
    ensures Elapsed(c, Ticking(i, t, false), k) == k * c.typingSpeed
    decreases k
  {
    var w := c.words[i];
    assert t == w[..|t|];
    if k > 0 {
      TypingTick(c, Ticking(i, t, false));
      TypingRun(c, i, w[..|t| + 1], k - 1);
      assert k * c.typingSpeed == c.typingSpeed + (k - 1) * c.typingSpeed;
    }
  }

  /** Within a deleting run the text shrinks by one character per tick, down to empty. */
  lemma {:induction false} DeletingRun(c: Config, i: nat, t: string, k: nat)
    requires Inv(c, Ticking(i, t, true)) && k <= |t|
    ensures Run(c, Ticking(i, t, true), k) == Ticking(i, t[..|t| - k], true)
    ensures Elapsed(c, Ticking(i, t, true), k) == k * c.deletingSpeed
    decreases k
  {
    if k > 0 {
      DeletingTick(c, Ticking(i, t, true));
      var t1 := t[..|t| - 1];
      DeletingRun(c, i, t1, k - 1);
      assert t1[..|t1| - (k - 1)] == t[..|t| - k];
      assert k * c.deletingSpeed == c.deletingSpeed + (k - 1) * c.deletingSpeed;
    }
  }

  /** Events spent on one word: type each character, one clamped tick that
      arms the pause, the pause, delete each character, one tick on empty text. */
  function WordEvents(w: string): nat
  {
    2 * |w| + 3
  }

  lemma MulSucc(n: nat, d: nat)
    ensures (n + 1) * d == n * d + d
  {
  }

  /** Typing a word from empty text, and the clamped tick that arms the pause. */
  lemma TypeWord(c: Config, i: nat)
    requires 0 < |c.words| && i < |c.words|
    ensures Run(c, Ticking(i, "", false), |c.words[i]| + 1) == Hook(i, c.words[i], false, false, true, true)
    ensures Elapsed(c, Ticking(i, "", false), |c.words[i]| + 1) == (|c.words[i]| + 1) * c.typingSpeed
  {
    var w := c.words[i];
    var n := |w|;
    RunAdd(c, Ticking(i, "", false), n, 1);
    TypingRun(c, i, "", n);
    assert w[..n] == w;
    var typed := Ticking(i, w, false);
    CompleteWordTick(c, typed);
    RunOne(c, typed);
    MulSucc(n, c.typingSpeed);
  }

  /** Typing a word from empty text, the clamped tick, and the pause. */
  lemma TypeAndPause(c: Config, i: nat)
    requires 0 < |c.words| && i < |c.words|
    ensures Run(c, Ticking(i, "", false), |c.words[i]| + 2) == Ticking(i, c.words[i], true)
    ensures Elapsed(c, Ticking(i, "", false), |c.words[i]| + 2)
         == (|c.words[i]| + 1) * c.typingSpeed + c.pauseTime
  {
    var w := c.words[i];
    var n := |w|;
    RunAdd(c, Ticking(i, "", false), n + 1, 1);
    TypeWord(c, i);
    var paused := Hook(i, w, false, false, true, true);
    PauseEvent(c, paused);
    RunOne(c, paused);
  }

  /** The tick on empty text while deleting moves to the next word. */
  lemma EmptyTick(c: Config, i: nat)
    requires 0 < |c.words| && i < |c.words|
    ensures Run(c, Ticking(i, "", true), 1) == Ticking(if i + 1 == |c.words| then 0 else i + 1, "", false)
    ensures Elapsed(c, Ticking(i, "", true), 1) == c.deletingSpeed
  {
    DeletingTick(c, Ticking(i, "", true));
    RunOne(c, Ticking(i, "", true));
  }

  /** Deleting a word and the tick on empty text that moves to the next one. */
  lemma DeleteWord(c: Config, i: nat, t: string)
    requires Inv(c, Ticking(i, t, true))
    ensures Run(c, Ticking(i, t, true), |t| + 1) == Ticking(if i + 1 == |c.words| then 0 else i + 1, "", false)
    ensures Elapsed(c, Ticking(i, t, true), |t| + 1) == (|t| + 1) * c.deletingSpeed
  {
    var start := Ticking(i, t, true);
    var empty := Ticking(i, "", true);
    var n := |t|;
    DeletingRun(c, i, t, n);
    assert t[..0] == "";
    assert Run(c, start, n) == empty;
    RunAdd(c, start, n, 1);
    assert Run(c, start, n + 1) == Run(c, empty, 1);
    assert Elapsed(c, start, n + 1) == n * c.deletingSpeed + Elapsed(c, empty, 1);
    EmptyTick(c, i);
    MulSucc(n, c.deletingSpeed);
  }

  /** One word, start to finish: the hook spends two more events on it than
      the component, one delay of each speed longer. */
  lemma WordCycle(c: Config, i: nat)
    requires 0 < |c.words| && i < |c.words|
    ensures Run(c, Ticking(i, "", false), WordEvents(c.words[i]))
         == Ticking(if i + 1 == |c.words| then 0 else i + 1, "", false)
    ensures Elapsed(c, Ticking(i, "", false), WordEvents(c.words[i]))
         == (|c.words[i]| + 1) * c.typingSpeed + c.pauseTime + (|c.words[i]| + 1) * c.deletingSpeed
  {
    var w := c.words[i];
    RunAdd(c, Ticking(i, "", false), |w| + 2, |w| + 1);
    TypeAndPause(c, i);
    DeleteWord(c, i, w);
  }

  function CycleEvents(words: seq<string>, j: nat): nat
    requires j <= |words|
  {
    if j == 0 then 0 else CycleEvents(words, j - 1) + WordEvents(words[j - 1])
  }

  /** After the first j words the hook shows empty text at index j, wrapped to 0 after the last. */
  lemma {:induction false} CycleThrough(c: Config, j: nat)
    requires 0 < |c.words| && j <= |c.words|
    ensures Run(c, Mount(c), CycleEvents(c.words, j)) == Ticking(if j == |c.words| then 0 else j, "", false)
    decreases j
  {
    if j > 0 {
      var before := CycleEvents(c.words, j - 1);
      var word := WordEvents(c.words[j - 1]);
      assert CycleEvents(c.words, j) == before + word;
      CycleThrough(c, j - 1);
      assert Run(c, Mount(c), before) == Ticking(j - 1, "", false);
      RunAdd(c, Mount(c), before, word);
      WordCycle(c, j - 1);
    }
  }

  /** One pass over the list returns the hook to the state it had on mount. */
  lemma FullCycle(c: Config)
    requires 0 < |c.words|
    ensures Run(c, Mount(c), CycleEvents(c.words, |c.words|)) == Mount(c)
  {
    CycleThrough(c, |c.words|);
  }

  /** Any whole number of passes returns the hook to its state on mount: the
      loop is periodic, with period `CycleEvents(c.words, |c.words|)`. */
  lemma {:induction false} RepeatedCycles(c: Config, m: nat)
    requires 0 < |c.words|
    ensures Run(c, Mount(c), m * CycleEvents(c.words, |c.words|)) == Mount(c)
    decreases m
  {
    if m > 0 {
      var period := CycleEvents(c.words, |c.words|);
      FullCycle(c);
      RepeatedCycles(c, m - 1);
      assert m * period == period + (m - 1) * period;
      RunAdd(c, Mount(c), period, (m - 1) * period);
    }
  }

  /** A list starting with "Data Analyst", default speeds, as the hook runs it: 13 ticks
      of 100 ms (the last one clamped) show "Data Analyst" with the pause
      armed, 2000 ms later it is deleting, and 13 ticks of 50 ms (the last one
      on empty text) later it shows nothing at index 1. */
  lemma DataAnalystScenario()
    ensures var c := WithDefaults(["Data Analyst", "Engineer"]);
      && Run(c, Mount(c), 13) == Hook(0, "Data Analyst", false, false, true, true)
      && Elapsed(c, Mount(c), 13) == 1300
      && Run(c, Mount(c), 14) == Ticking(0, "Data Analyst", true)
      && Run(c, Mount(c), 27) == Ticking(1, "", false)
      && Elapsed(c, Mount(c), 27) == 1300 + 2000 + 650
  {
    var c := WithDefaults(["Data Analyst", "Engineer"]);
    assert |c.words[0]| == 12;
    TypeWord(c, 0);
    TypeAndPause(c, 0);
    WordCycle(c, 0);
  }

  /** After unmounting no event changes what the hook shows, and no tick is
      pending; a pause timeout armed before unmounting may still fire. */
  lemma {:induction false} Teardown(c: Config, h: Hook, k: nat)
    requires Inv(c, h) && !h.mounted
    ensures var r := Run(c, h, k);
      (r.currentWordIndex, r.displayText, r.isDeleting) == (h.currentWordIndex, h.displayText, h.isDeleting)
      && !r.mounted && !r.tickPending
    decreases k
  {
    if k > 0 {
      Teardown(c, Next(c, h), k - 1);
    }
  }

  /** The two typewriters visit the words in the same order and both come
      back to empty text on the next word, but the hook takes two more events
      per word and one typing and one deleting delay longer. */
  lemma SlowerThanComponent(c: Config, i: nat)
    requires 0 < |c.words| && i < |c.words|
    ensures var next := if i + 1 == |c.words| then 0 else i + 1;
      && Run(c, Ticking(i, "", false), WordEvents(c.words[i])) == Ticking(next, "", false)
      && TypewriterText.Run(c, TypewriterText.State("", i, false), TypewriterText.WordTicks(c.words[i]))
         == TypewriterText.State("", next, false)
      && WordEvents(c.words[i]) == TypewriterText.WordTicks(c.words[i]) + 2
      && Elapsed(c, Ticking(i, "", false), WordEvents(c.words[i]))
         == TypewriterText.Elapsed(c, TypewriterText.State("", i, false), TypewriterText.WordTicks(c.words[i]))
            + c.typingSpeed + c.deletingSpeed
  {
    WordCycle(c, i);
    TypewriterText.WordCycle(c, i);
    var n := |c.words[i]|;
    assert (n + 1) * c.typingSpeed == n * c.typingSpeed + c.typingSpeed;
    assert (n + 1) * c.deletingSpeed == n * c.deletingSpeed + c.deletingSpeed;
  }

  // ---------------------------------------------------------------------------
  // The hook as it runs.

  class Typewriter {
    const config: Config
    var currentWordIndex: nat
    var displayText: string
    var isDeleting: bool
    /** The tick timeout the latest effect run armed; cleared by its cleanup. */
    var tickPending: bool
    /** The pause timeout, which no cleanup clears. */
    var pausePending: bool
    var mounted: bool

    function Snapshot(): Hook
      reads this
    {
      Hook(currentWordIndex, displayText, isDeleting, tickPending, pausePending, mounted)
    }

    ghost predicate Valid()
      reads this
    {
      Inv(config, Snapshot())
    }

    constructor (config: Config)
      requires |config.words| > 0
      ensures Valid() && this.config == config && Snapshot() == Mount(config)
    {
      this.config := config;
      currentWordIndex, displayText, isDeleting := 0, "", false;
      pausePending, mounted := false, true;
      tickPending := true;
    }

    /** The tick timeout fires: `handleType` with the values the effect saw. */
    method Tick() returns (fired: bool)
      requires Valid()
      modifies this
      ensures Valid() && fired == old(tickPending)
      ensures Snapshot() == FireTick(config, old(Snapshot()))
    {
      if !tickPending {
        return false;
      }
      tickPending := false;
      var word := config.words[currentWordIndex];
      var index, text, deleting := currentWordIndex, displayText, isDeleting;
      if deleting {
        displayText := JsString.Substring(displayText, 0, |displayText| - 1);
      } else {
        displayText := JsString.Substring(word, 0, |displayText| + 1);
      }
      if !deleting && text == word {
        pausePending := true;
      } else if deleting && text == "" {
        isDeleting := false;
        currentWordIndex := (currentWordIndex + 1) % |config.words|;
      }
      // The effect depends on the three cells: it runs again only if one changed.
      if currentWordIndex != index || displayText != text || isDeleting != deleting {
        tickPending := true;
      }
      fired := true;
    }

    /** The pause timeout fires. */
    method Pause() returns (fired: bool)
      requires Valid()
      modifies this
      ensures Valid() && fired == old(pausePending)
      ensures Snapshot() == FirePause(config, old(Snapshot()))
    {
      if !pausePending {
        return false;
      }
      pausePending := false;
      if mounted && !isDeleting {
        isDeleting := true;
        tickPending := true;
      }
      fired := true;
    }

    method Unmount()
      requires Valid()
      modifies this
      ensures Valid() && Snapshot() == Cleanup(old(Snapshot()))
    {
      mounted := false;
      tickPending := false;
    }
  }
}
