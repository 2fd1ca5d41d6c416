/** The typewriter component (components/TypewriterText.tsx).

    Its state is the visible text, the index of the word being worked on and
    whether it is deleting. After every change an effect runs that looks at
    the state and either arms exactly one timeout (type the next character,
    delete the last one, or, on a complete word, start deleting after the
    pause) or, on empty text while deleting, moves on to the next word at
    once. Time is abstracted away: a tick is "the one pending timeout fires",
    followed by the effect runs that its state change triggers. */
module TypewriterText {
  import opened Timing
  import JsString

  datatype State = State(displayText: string, wordIndex: nat, isDeleting: bool)

  /** The state on mount. */
  const Initial: State := State("", 0, false)

  /** The three timeouts the effect can arm. */
  datatype Timer = TypeNext | DeleteLast | StartDeleting

  /** Index in range and visible text a prefix of the current word. */
  predicate Consistent(c: Config, s: State)
  {
    |c.words| > 0 && s.wordIndex < |c.words| && s.displayText <= c.words[s.wordIndex]
  }

  /** A state in which the effect arms a timeout rather than switching words at once. */
  predicate Settled(s: State)
  {
    !(s.isDeleting && s.displayText == "")
  }

  /** The invariant between ticks. */
  predicate Inv(c: Config, s: State)
  {
    Consistent(c, s) && Settled(s)
  }

  function CurrentWord(c: Config, s: State): string
    requires Consistent(c, s)
  {
    c.words[s.wordIndex]
  }

  /** The timeout one run of the effect arms in a settled state. */
  function Scheduled(c: Config, s: State): (t: Timer)
    requires Inv(c, s)
    ensures t == TypeNext <==> !s.isDeleting && s.displayText < CurrentWord(c, s)
    ensures t == StartDeleting <==> !s.isDeleting && s.displayText == CurrentWord(c, s)
    ensures t == DeleteLast <==> s.isDeleting && s.displayText != ""
  {
    if s.isDeleting then DeleteLast
    else if |s.displayText| < |CurrentWord(c, s)| then TypeNext
    else StartDeleting
  }

  /** The delay the effect gives each timeout. */
  function Delay(c: Config, t: Timer): (d: nat)
    ensures t == TypeNext ==> d == c.typingSpeed
    ensures t == DeleteLast ==> d == c.deletingSpeed
    ensures t == StartDeleting ==> d == c.pauseTime
  {
    match t
    case TypeNext => c.typingSpeed
    case DeleteLast => c.deletingSpeed
    case StartDeleting => c.pauseTime
  }

  /** What a timeout's callback does to the state when it fires. */
  function Fire(c: Config, s: State, t: Timer): (r: State)
    requires Consistent(c, s)
    ensures Consistent(c, r) && r.wordIndex == s.wordIndex
  {
    match t
    case TypeNext => s.(displayText := JsString.Slice(CurrentWord(c, s), 0, |s.displayText| + 1))
    case DeleteLast => s.(displayText := JsString.Slice(s.displayText, 0, -1))
    case StartDeleting => s.(isDeleting := true)
  }

  /** The effect's immediate branch: stop deleting and move to the next word, wrapping around. */
  function NextWord(c: Config, s: State): (r: State)
    requires Consistent(c, s) && s.displayText == ""
    ensures Inv(c, r) && r.displayText == "" && !r.isDeleting
    ensures r.wordIndex == if s.wordIndex + 1 == |c.words| then 0 else s.wordIndex + 1
  {
    s.(isDeleting := false, wordIndex := (s.wordIndex + 1) % |c.words|)
  }

  /** The effect runs that follow a change, up to the one that arms a timeout. */
  function Settle(c: Config, s: State): (r: State)
    requires Consistent(c, s)
    ensures Inv(c, r)
    ensures Settled(s) ==> r == s
  {
    if s.isDeleting && s.displayText == "" then NextWord(c, s) else s
  }

  /** One tick: the armed timeout fires and the state settles again. */
  function Step(c: Config, s: State): (r: State)
    requires Inv(c, s)
    ensures Inv(c, r)
  {
    Settle(c, Fire(c, s, Scheduled(c, s)))
  }

  /** The state after k ticks. */
  function Run(c: Config, s: State, k: nat): (r: State)
    requires Inv(c, s)
    ensures Inv(c, r)
    decreases k
  {
    if k == 0 then s else Run(c, Step(c, s), k - 1)
  }

  /** Total delay of the timeouts that fire during k ticks. */
  function Elapsed(c: Config, s: State, k: nat): nat
    requires Inv(c, s)
    decreases k
  {
    if k == 0 then 0 else Delay(c, Scheduled(c, s)) + Elapsed(c, Step(c, s), k - 1)
  }

  // ---------------------------------------------------------------------------
  // Single ticks

  /** Typing a word that is not complete appends its next character after `typingSpeed`. */
  lemma TypingTick(c: Config, s: State)
    requires Inv(c, s) && !s.isDeleting && |s.displayText| < |CurrentWord(c, s)|
    ensures Step(c, s) == s.(displayText := CurrentWord(c, s)[..|s.displayText| + 1])
    ensures |Step(c, s).displayText| == |s.displayText| + 1
    ensures Delay(c, Scheduled(c, s)) == c.typingSpeed
  {
  }

  /** On a complete non-empty word the only change, after `pauseTime`, is the switch to deleting. */
  lemma PauseTick(c: Config, s: State)
    requires Inv(c, s) && !s.isDeleting && s.displayText == CurrentWord(c, s) != ""
    ensures Step(c, s) == s.(isDeleting := true)
    ensures Delay(c, Scheduled(c, s)) == c.pauseTime
  {
  }

  /** Deleting removes exactly the last character after `deletingSpeed`; when
      that empties the text, the component moves on to the next word at once. */
  lemma DeletingTick(c: Config, s: State)
    requires Inv(c, s) && s.isDeleting
    ensures |s.displayText| > 1 ==> Step(c, s) == s.(displayText := s.displayText[..|s.displayText| - 1])
    ensures |s.displayText| == 1 ==> Step(c, s) == State("", if s.wordIndex + 1 == |c.words| then 0 else s.wordIndex + 1, false)
    ensures Delay(c, Scheduled(c, s)) == c.deletingSpeed
  {
    JsString.DropLast(s.displayText);
  }

  /** With a single word the index never leaves 0. */
  lemma SingleWord(c: Config, s: State, k: nat)
    requires Inv(c, s) && |c.words| == 1
    ensures Run(c, s, k).wordIndex == 0
  {
  }

  // ---------------------------------------------------------------------------
  // Runs of ticks

  lemma {:induction false} RunAdd(c: Config, s: State, a: nat, b: nat)
    requires Inv(c, s)
    ensures Run(c, s, a + b) == Run(c, Run(c, s, a), b)
    ensures Elapsed(c, s, a + b) == Elapsed(c, s, a) + Elapsed(c, Run(c, s, a), b)
    decreases a
  {
    if a > 0 {
      RunAdd(c, Step(c, s), a - 1, b);
    }
  }

  /** A run of one tick is one step. */
  lemma RunOne(c: Config, s: State)
    requires Inv(c, s)
    ensures Run(c, s, 1) == Step(c, s)
    ensures Elapsed(c, s, 1) == Delay(c, Scheduled(c, s))
  {
    assert Run(c, s, 1) == Run(c, Step(c, s), 0);
    assert Elapsed(c, s, 1) == Delay(c, Scheduled(c, s)) + Elapsed(c, Step(c, s), 0);
  }

  /** Within a typing run the text grows by one character of the word per tick. */
  lemma {:induction false} TypingRun(c: Config, s: State, k: nat)
    requires Inv(c, s) && !s.isDeleting && |s.displayText| + k <= |CurrentWord(c, s)|
    ensures Run(c, s, k) == s.(displayText := CurrentWord(c, s)[..|s.displayText| + k])
    ensures Elapsed(c, s, k) == k * c.typingSpeed
    decreases k
  {
    var w := CurrentWord(c, s);
    assert s.displayText == w[..|s.displayText|];
    if k > 0 {
      TypingTick(c, s);
      var s1 := Step(c, s);
      assert CurrentWord(c, s1) == w && |s1.displayText| == |s.displayText| + 1;
      TypingRun(c, s1, k - 1);
      assert k * c.typingSpeed == c.typingSpeed + (k - 1) * c.typingSpeed;
    }
  }

  /** Within a deleting run the text shrinks by one character per tick. */
  lemma {:induction false} DeletingRun(c: Config, s: State, k: nat)
    requires Inv(c, s) && s.isDeleting && k < |s.displayText|
    ensures Run(c, s, k) == s.(displayText := s.displayText[..|s.displayText| - k])
    ensures Elapsed(c, s, k) == k * c.deletingSpeed
    decreases k
  {
    if k > 0 {
      DeletingTick(c, s);
      var s1 := Step(c, s);
      DeletingRun(c, s1, k - 1);
      assert s1.displayText[..|s1.displayText| - (k - 1)] == s.displayText[..|s.displayText| - k];
      assert k * c.deletingSpeed == c.deletingSpeed + (k - 1) * c.deletingSpeed;
    }
  }

  /** Ticks spent on one word: type each character, pause, delete each character. */
  function WordTicks(w: string): nat
  {
    2 * |w| + 1
  }

  /** Typing a non-empty word from empty text and pausing on it. */
  lemma TypeAndPause(c: Config, i: nat)
    requires 0 < |c.words| && i < |c.words| && c.words[i] != ""
    ensures Run(c, State("", i, false), |c.words[i]| + 1) == State(c.words[i], i, true)
    ensures Elapsed(c, State("", i, false), |c.words[i]| + 1) == |c.words[i]| * c.typingSpeed + c.pauseTime
  {
    var s := State("", i, false);
    var w := c.words[i];
    var n := |w|;
    RunAdd(c, s, n, 1);
    TypingRun(c, s, n);
    assert w[..n] == w;
    var typed := State(w, i, false);
    PauseTick(c, typed);
    RunOne(c, typed);
  }

  /** Deleting a whole word ends on empty text at the next index, not deleting. */
  lemma DeleteWord(c: Config, s: State)
    requires Inv(c, s) && s.isDeleting
    ensures Run(c, s, |s.displayText|) == State("", if s.wordIndex + 1 == |c.words| then 0 else s.wordIndex + 1, false)
    ensures Elapsed(c, s, |s.displayText|) == |s.displayText| * c.deletingSpeed
  {
    var n := |s.displayText|;
    RunAdd(c, s, n - 1, 1);
    DeletingRun(c, s, n - 1);
    var last := s.(displayText := s.displayText[..1]);
    DeletingTick(c, last);
    RunOne(c, last);
  }

  /** One word, start to finish: from empty text at index i, after typing,
      pausing and deleting, the component shows empty text at the next index,
      having waited for each character twice and for the pause once. */
  lemma WordCycle(c: Config, i: nat)
    requires 0 < |c.words| && i < |c.words|
    ensures Run(c, State("", i, false), WordTicks(c.words[i])) == State("", if i + 1 == |c.words| then 0 else i + 1, false)
    ensures Elapsed(c, State("", i, false), WordTicks(c.words[i]))
         == |c.words[i]| * c.typingSpeed + c.pauseTime + |c.words[i]| * c.deletingSpeed
  {
    var s := State("", i, false);
    var w := c.words[i];
    var n := |w|;
    if n == 0 {
      RunOne(c, s);
    } else {
      RunAdd(c, s, n + 1, n);
      TypeAndPause(c, i);
      DeleteWord(c, State(w, i, true));
    }
  }

  /** Ticks spent on the first j words. */
  function CycleTicks(words: seq<string>, j: nat): nat
    requires j <= |words|
  {
    if j == 0 then 0 else CycleTicks(words, j - 1) + WordTicks(words[j - 1])
  }

  /** Ticks in one pass over the whole list. */
  function Period(words: seq<string>): nat
  {
    CycleTicks(words, |words|)
  }

  /** After the first j words have each been typed and deleted, the component
      shows empty text at index j, wrapped to 0 after the last word. */
  lemma {:induction false} CycleThrough(c: Config, j: nat)
    requires 0 < |c.words| && j <= |c.words|
    ensures Run(c, Initial, CycleTicks(c.words, j)) == State("", if j == |c.words| then 0 else j, false)
    decreases j
  {
    if j > 0 {
      var n := |c.words|;
      var before := CycleTicks(c.words, j - 1);
      var word := WordTicks(c.words[j - 1]);
      assert CycleTicks(c.words, j) == before + word;
      CycleThrough(c, j - 1);
      var mid := State("", j - 1, false);
      assert Run(c, Initial, before) == mid;
      RunAdd(c, Initial, before, word);
      WordCycle(c, j - 1);
    }
  }

  /** One pass over the list brings the component back to its initial state. */
  lemma FullCycle(c: Config)
    requires 0 < |c.words|
    ensures Run(c, Initial, Period(c.words)) == Initial
  {
    CycleThrough(c, |c.words|);
  }

  /** So does any number of passes: the loop is periodic. */
  lemma {:induction false} RepeatedCycles(c: Config, m: nat)
    requires 0 < |c.words|
    ensures Run(c, Initial, m * Period(c.words)) == Initial
    decreases m
  {
    if m > 0 {
      FullCycle(c);
      RepeatedCycles(c, m - 1);
      assert m * Period(c.words) == Period(c.words) + (m - 1) * Period(c.words);
      RunAdd(c, Initial, Period(c.words), (m - 1) * Period(c.words));
    }
  }

  /** A list starting with "Data Analyst", default speeds: 12 ticks type "Data Analyst",
      the 13th (after the 2000 ms pause) starts deleting, and 12 deleting
      ticks later the component is on "Engineer" with empty text. */
  lemma DataAnalystScenario()
    ensures var c := WithDefaults(["Data Analyst", "Engineer"]);
      && Run(c, Initial, 12) == State("Data Analyst", 0, false)
      && Elapsed(c, Initial, 12) == 1200
      && Run(c, Initial, 13) == State("Data Analyst", 0, true)
      && Run(c, Initial, 25) == State("", 1, false)
      && Elapsed(c, Initial, 25) == 1200 + 2000 + 600
  {
    var c := WithDefaults(["Data Analyst", "Engineer"]);
    var w := c.words[0];
    assert |w| == 12;
    TypingRun(c, Initial, 12);
    assert w[..12] == w;
    TypeAndPause(c, 0);
    WordCycle(c, 0);
  }

  /** The roles the hero section passes, with the default speeds: after 95
      ticks (each role typed, paused on and deleted) the loop starts over. */
  lemma HeroRoles()
    ensures var c := WithDefaults(["Analista de Dados", "Data Analyst", "Futuro Engenheiro"]);
      && Period(c.words) == 95
      && Run(c, Initial, 95) == Initial
  {
    var c := WithDefaults(["Analista de Dados", "Data Analyst", "Futuro Engenheiro"]);
    assert CycleTicks(c.words, 3) == 35 + 25 + 35;
    FullCycle(c);
  }

  // ---------------------------------------------------------------------------
  // The component as it runs: the three state cells and the one armed timeout.

  datatype Pending = NoTimeout | Timeout(timer: Timer, delay: nat)

  class Typewriter {
    const config: Config
    var displayText: string
    var wordIndex: nat
    var isDeleting: bool
    /** The timeout armed by the latest effect run; cleared by its cleanup. */
    var pending: Pending
    /** Whether the component is on the page; the effect runs only while it is. */
    var mounted: bool

    function Current(): State
      reads this
    {
      State(displayText, wordIndex, isDeleting)
    }

    /** Between events the state satisfies the invariant and, while mounted,
        exactly the timeout its state calls for is armed. */
    ghost predicate Valid()
      reads this
    {
      && Inv(config, Current())
      && (!mounted ==> pending == NoTimeout)
      && (pending.Timeout? ==>
            pending.timer == Scheduled(config, Current()) && pending.delay == Delay(config, pending.timer))
    }

    /** Mounting: the initial state, then the first effect run. */
    constructor (config: Config)
      requires |config.words| > 0
      ensures Valid() && this.config == config
      ensures Current() == Initial && pending.Timeout? && mounted
    {
      this.config := config;
      displayText, wordIndex, isDeleting := "", 0, false;
      pending := NoTimeout;
      mounted := true;
      new;
      RunEffect();
    }

    /** One run of the effect: arm the timeout the state calls for, or switch
        to the next word at once, which changes the state and runs it again. */
    method RunEffect()
      requires Consistent(config, Current()) && pending == NoTimeout && mounted
      modifies this
      ensures Valid() && pending.Timeout? && mounted
      ensures Current() == Settle(config, old(Current()))
      decreases if isDeleting then 1 else 0
    {
      var word := config.words[wordIndex];
      if isDeleting {
        if |displayText| > 0 {
          pending := Timeout(DeleteLast, config.deletingSpeed);
        } else {
          isDeleting := false;
          wordIndex := (wordIndex + 1) % |config.words|;
          RunEffect();
        }
      } else if |displayText| < |word| {
        pending := Timeout(TypeNext, config.typingSpeed);
      } else {
        pending := Timeout(StartDeleting, config.pauseTime);
      }
    }

    /** The armed timeout fires. Every callback changes the state, so the
        effect runs again and arms the next one. Once unmounted nothing fires. */
    method Tick() returns (fired: bool)
      requires Valid()
      modifies this
      ensures Valid()
      ensures fired == old(pending).Timeout?
      ensures fired ==> old(mounted) && Current() == Step(config, old(Current())) && pending.Timeout?
      ensures mounted == old(mounted)
      ensures !fired ==> Current() == old(Current()) && pending == NoTimeout
    {
      if pending == NoTimeout {
        return false;
      }
      var timer := pending.timer;
      pending := NoTimeout;
      match timer {
        case TypeNext =>
          displayText := JsString.Slice(config.words[wordIndex], 0, |displayText| + 1);
        case DeleteLast =>
          displayText := JsString.Slice(displayText, 0, -1);
        case StartDeleting =>
          isDeleting := true;
      }
      RunEffect();
      fired := true;
    }

    /** Unmounting: the effect's cleanup clears the armed timeout, and the
        effect never runs again. */
    method Unmount()
      requires Valid()
      modifies this
      ensures Valid() && !mounted && pending == NoTimeout && Current() == old(Current())
    {
      pending := NoTimeout;
      mounted := false;
    }
  }
}
