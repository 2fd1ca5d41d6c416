# Portfolio page: typewriter, scroll detection and static tables

A model of the logic behind a single-page portfolio site written in React
and TypeScript. It covers four parts:

- the typewriter component `TypewriterText`: it types a word character by
  character, pauses on it, deletes it, and moves on to the next word,
  wrapping around at the end of the list;
- the `useTypewriter` hook: the same effect written differently, with its
  own step rules and a second timeout for the pause;
- the `useScroll` hook: it reports whether the page is scrolled past a
  threshold, and requests at most one animation frame per burst of scroll
  events;
- the page's constant tables (navigation, skills, projects) and the tag
  colour lookup `getTagStyle`.

Time, timeouts, animation frames and React's scheduler are replaced by
explicit events. Each of the three event-driven modules (the component and
the two hooks) gives:

- a pure state machine: a step function and `Run`/`Replay` over a number or
  sequence of events;
- lemmas about that machine;
- a class whose fields are the component's state cells and whose methods
  are proved to perform exactly one step of the machine.

Files:

- `js_string.dfy`: `String.prototype.slice` and `substring`, with their
  index normalisation.
- `timing.dfy`: the configuration the typewriters take, with their default
  delays.
- `typewriter_text.dfy`: the component.
- `use_typewriter.dfy`: the hook. Its last lemma compares it with the
  component.
- `use_scroll.dfy`: the scroll hook.
- `constants.dfy`: the tables and `getTagStyle`, as functions with the
  facts the page relies on stated as their contracts.

### Where the two typewriters differ

With default speeds and a list starting with "Data Analyst", the two
implementations take different numbers of ticks:

- **The hook** shows the whole word after 12 ticks of 100 ms but arms the
  pause only after 13, and needs 13 deleting ticks of 50 ms (`UseTypewriter.DataAnalystScenario`). `substring` clamps
  its end index, so the 13th typing tick leaves the complete word unchanged
  and arms the pause. The 13th deleting tick runs on empty text and moves to
  the next word.
- **The component** needs 12 typing ticks (1200 ms) and 12 deleting ticks
  (`TypewriterText.DataAnalystScenario`). On a complete word it arms the
  pause directly. On empty text while deleting it moves to the next word
  during the effect, with no timeout.

`UseTypewriter.SlowerThanComponent` states the general difference: per word,
the hook takes two more events and `typingSpeed + deletingSpeed` more time.

## Model

| member | source | states |
|---|---|---|
| Timing.WithDefaults | components/TypewriterText.tsx:22-24 | A caller that passes only the words gets typing 100 ms, deleting 50 ms and pause 2000 ms (the same defaults as hooks/useTypewriter.ts:3). |
| JsString.SliceIndex | components/TypewriterText.tsx:50 | A `slice` position normalises into [0, len]: a negative position counts back from the end (0 if it reaches past the start), and a position past the end becomes the length. |
| JsString.ClampIndex | hooks/useTypewriter.ts:13 | A `substring` position clamps into [0, len]: a negative one becomes 0, and one past the end becomes the length (the clamp the hook's complete-word tick at hooks/useTypewriter.ts:15 relies on). |
| JsString.Slice | components/TypewriterText.tsx:64 | `slice(start, end)` is never longer than its string, from 0 is a prefix, and on in-range bounds is exactly `s[start..end]`. |
| JsString.Substring | hooks/useTypewriter.ts:15 | `substring(start, end)` is never longer than its string, from 0 is a prefix, and on in-range bounds is exactly `s[start..end]`. |
| JsString.DropLast | hooks/useTypewriter.ts:13 | `slice(0, -1)` equals `substring(0, length - 1)`; it drops the last character, and the empty string stays empty. |
| JsString.SubstringExtends | hooks/useTypewriter.ts:15 | `word.substring(0, n + 1)` on a prefix of length n adds the next character, or returns the whole word unchanged once it is complete. |
| TypewriterText.Scheduled | components/TypewriterText.tsx:45-73 | In a settled state, each timeout is armed exactly when its condition holds: type while the text is a proper prefix, start deleting on the complete word, delete while deleting non-empty text. |
| TypewriterText.Delay | components/TypewriterText.tsx:49-71 | Each timeout waits its own delay: typing `typingSpeed` (line 65), deleting `deletingSpeed` (line 51), the pause `pauseTime` (line 71). `TypingTick`, `PauseTick` and `DeletingTick` tie these to the states that arm them. |
| TypewriterText.Fire | components/TypewriterText.tsx:49-71 | A timeout callback keeps the index and keeps the text a prefix of the current word. |
| TypewriterText.NextWord | components/TypewriterText.tsx:52-58 | On empty text the component stops deleting and moves to the next index, wrapping to 0 after the last word. |
| TypewriterText.Settle | components/TypewriterText.tsx:41-58 | The effect's immediate branch restores the invariant and leaves a settled state unchanged. |
| TypewriterText.Step | components/TypewriterText.tsx:41-79 | One tick (a timeout fires, then the effect re-runs) preserves the invariant: index in range, text a prefix, never deleting empty text. |
| TypewriterText.Run | components/TypewriterText.tsx:41-79 | Any number of ticks preserves the invariant. |
| TypewriterText.TypingTick | components/TypewriterText.tsx:61-65 | While typing an incomplete word, a tick appends exactly the word's next character after `typingSpeed`. |
| TypewriterText.PauseTick | components/TypewriterText.tsx:66-72 | On a complete non-empty word, the only change (after `pauseTime`) is the switch to deleting. |
| TypewriterText.DeletingTick | components/TypewriterText.tsx:45-58 | A deleting tick removes exactly the last character after `deletingSpeed`. Removing the last one moves on to the next word (wrapping) with typing resumed. |
| TypewriterText.SingleWord | components/TypewriterText.tsx:57 | With one word the index stays 0 forever. |
| TypewriterText.RunAdd | components/TypewriterText.tsx:41-79 | Runs compose: a + b ticks are a ticks followed by b, in both state and elapsed time. |
| TypewriterText.TypingRun | components/TypewriterText.tsx:61-65 | In a typing run the text after k ticks is the word's first \|text\| + k characters, after k × `typingSpeed`. |
| TypewriterText.DeletingRun | components/TypewriterText.tsx:47-51 | In a deleting run the text after k ticks has lost exactly its last k characters, after k × `deletingSpeed`. |
| TypewriterText.TypeAndPause | components/TypewriterText.tsx:61-72 | From empty text, \|w\| + 1 ticks type a non-empty word and start deleting it, after \|w\| × typing + pause. |
| TypewriterText.DeleteWord | components/TypewriterText.tsx:45-58 | Deleting a whole word takes one tick per character and ends on empty text at the next index, typing. |
| TypewriterText.WordCycle | components/TypewriterText.tsx:41-79 | One word takes 2\|w\| + 1 ticks and \|w\| × typing + pause + \|w\| × deleting ms, and ends on empty text at the next index. |
| TypewriterText.CycleThrough | components/TypewriterText.tsx:57 | After the first j words, the component shows empty text at index j, wrapped to 0 after the last word. |
| TypewriterText.FullCycle | components/TypewriterText.tsx:41-79 | One pass over the list returns the component to its initial state. |
| TypewriterText.RepeatedCycles | components/TypewriterText.tsx:41-79 | Any whole number of passes returns it to the initial state: the loop is periodic. |
| TypewriterText.DataAnalystScenario | components/TypewriterText.tsx:22-34 | With default speeds, "Data Analyst" is on screen after 12 ticks (1200 ms) and deleting starts at tick 13. After 25 ticks (3800 ms) the text is empty at index 1. |
| TypewriterText.HeroRoles | components/Hero.tsx:19 | For the three roles the hero section passes, a pass takes 95 ticks and then the loop starts over. |
| TypewriterText.Typewriter.constructor | components/TypewriterText.tsx:28-34 | Mounting starts from empty text at index 0, typing, mounted, with the first timeout armed. |
| TypewriterText.Typewriter.RunEffect | components/TypewriterText.tsx:41-79 | The effect runs only while mounted; one run arms exactly the timeout `Scheduled` names, with its delay, after the immediate word switch if one applies. |
| TypewriterText.Typewriter.Tick | components/TypewriterText.tsx:49-71 | The armed timeout fires and the state becomes `Step` of the old state with the next timeout armed; with nothing armed nothing changes. |
| TypewriterText.Typewriter.Unmount | components/TypewriterText.tsx:78 | Cleanup clears the armed timeout, marks the component unmounted so the effect never runs again, and leaves the state as it is. |
| UseTypewriter.Mount | hooks/useTypewriter.ts:4-6 | Mounting starts from empty text at index 0, typing, with only the tick pending. |
| UseTypewriter.TickDelay | hooks/useTypewriter.ts:26 | The tick waits `deletingSpeed` while deleting, `typingSpeed` otherwise. |
| UseTypewriter.HandleType | hooks/useTypewriter.ts:9-24 | The pause is armed exactly when typing on the complete word, and then nothing else changes. The text stays a prefix of the current word; a change of word comes with empty text. |
| UseTypewriter.FireTick | hooks/useTypewriter.ts:8-28 | A tick preserves the invariant (while mounted, exactly one timeout pending); with no tick pending nothing happens. |
| UseTypewriter.FirePause | hooks/useTypewriter.ts:19 | The pause timeout fires once and preserves the invariant, even after unmounting. |
| UseTypewriter.Cleanup | hooks/useTypewriter.ts:27 | Unmounting cancels the tick and keeps the state cells and any pending pause. |
| UseTypewriter.Next | hooks/useTypewriter.ts:8-28 | Whichever timeout is pending fires, preserving the invariant. |
| UseTypewriter.NextDelay | hooks/useTypewriter.ts:19-26 | The next event waits the tick's delay while the tick is pending and `pauseTime` (line 19) when only the pause is; it is always one of the three configured delays. |
| UseTypewriter.Run | hooks/useTypewriter.ts:8-28 | Any number of events preserves the invariant. |
| UseTypewriter.TypingTick | hooks/useTypewriter.ts:15 | While typing an incomplete word, a tick appends exactly its next character. |
| UseTypewriter.CompleteWordTick | hooks/useTypewriter.ts:15-19 | On the complete word the tick leaves the text unchanged (`substring` clamps), so the tick is not re-armed and the pause is armed instead. |
| UseTypewriter.PauseEvent | hooks/useTypewriter.ts:19 | The pause switches a mounted hook to deleting after `pauseTime` and re-arms the tick. |
| UseTypewriter.DeletingTick | hooks/useTypewriter.ts:12-22 | A deleting tick drops the last character. On empty text the text stays empty and the hook moves to the next word (wrapping), typing. |
| UseTypewriter.RunAdd | hooks/useTypewriter.ts:8-28 | Runs compose, in both state and elapsed time. |
| UseTypewriter.TypingRun | hooks/useTypewriter.ts:15 | In a typing run the text after k ticks is the word's first \|text\| + k characters, after k × `typingSpeed`. |
| UseTypewriter.DeletingRun | hooks/useTypewriter.ts:13 | In a deleting run the text after k ticks has lost its last k characters, after k × `deletingSpeed`. |
| UseTypewriter.TypeWord | hooks/useTypewriter.ts:15-19 | From empty text, \|w\| + 1 ticks type the word and make the clamped tick. The pause is then armed and no tick is pending, after (\|w\| + 1) × typing. |
| UseTypewriter.TypeAndPause | hooks/useTypewriter.ts:15-19 | From empty text, \|w\| + 2 events type the word, make the clamped tick and fire the pause, after (\|w\| + 1) × typing + pause. |
| UseTypewriter.EmptyTick | hooks/useTypewriter.ts:20-22 | The tick on empty text while deleting moves to the next index after `deletingSpeed`. |
| UseTypewriter.DeleteWord | hooks/useTypewriter.ts:12-22 | Deleting a word takes one tick per character plus one on empty text, and ends at the next index, typing. |
| UseTypewriter.WordCycle | hooks/useTypewriter.ts:8-28 | One word takes 2\|w\| + 3 events and (\|w\| + 1) × typing + pause + (\|w\| + 1) × deleting ms, and ends on empty text at the next index. |
| UseTypewriter.CycleThrough | hooks/useTypewriter.ts:22 | After the first j words, the hook shows empty text at index j, wrapped to 0 after the last. |
| UseTypewriter.FullCycle | hooks/useTypewriter.ts:8-28 | One pass over the list returns the hook to the state it had on mount. |
| UseTypewriter.RepeatedCycles | hooks/useTypewriter.ts:8-28 | Any whole number of passes returns the hook to its state on mount: the loop is periodic. |
| UseTypewriter.DataAnalystScenario | hooks/useTypewriter.ts:3 | With default speeds, "Data Analyst" is shown with the pause armed after 13 ticks (1300 ms) and is deleting after the pause. After 27 events (3950 ms) the text is empty at index 1. |
| UseTypewriter.Teardown | hooks/useTypewriter.ts:19-27 | After unmounting no event changes what the hook shows and no tick is pending; a pause armed earlier can still fire. |
| UseTypewriter.SlowerThanComponent | hooks/useTypewriter.ts:8-28 | Hook and component move from a word to the same next word. The hook takes two more events and `typingSpeed + deletingSpeed` more time. |
| UseTypewriter.Typewriter.constructor | hooks/useTypewriter.ts:4-6 | The mounted hook is in the `Mount` state. |
| UseTypewriter.Typewriter.Tick | hooks/useTypewriter.ts:9-26 | The tick timeout runs `handleType` on the values the effect saw, and re-arms only if a state cell changed; the new state is `FireTick` of the old one. |
| UseTypewriter.Typewriter.Pause | hooks/useTypewriter.ts:19 | The pause timeout fires; the new state is `FirePause` of the old one. |
| UseTypewriter.Typewriter.Unmount | hooks/useTypewriter.ts:27 | Cleanup; the new state is `Cleanup` of the old one. |
| UseScroll.Updater | hooks/useScroll.ts:18 | The updater always yields the new reading, and changes the value exactly when the reading differs from it. |
| UseScroll.HandleScroll | hooks/useScroll.ts:13-23 | A frame is requested only when none is pending; afterwards one is pending. |
| UseScroll.Mount | hooks/useScroll.ts:8-29 | After mounting the hook reports false, the initial check has requested one frame, and the listener is registered. |
| UseScroll.OnScroll | hooks/useScroll.ts:29-31 | A scroll event runs `handleScroll` exactly while the listener is registered and leaves the state unchanged after cleanup; it requests at most one more frame. |
| UseScroll.DefaultThresholdBoundary | hooks/useScroll.ts:7-18 | With the default threshold of 50, the first frame reports an offset of 50 as not scrolled and 51 as scrolled (one published change): the comparison is strict. |
| UseScroll.OnFrame | hooks/useScroll.ts:15-20 | With no frame pending nothing changes. The frame clears `ticking`. While mounted it sets the state to `scrollY > threshold`; an update is counted only when the value changed; after unmounting the state is kept. |
| UseScroll.Cleanup | hooks/useScroll.ts:31 | Cleanup removes the listener and does not cancel a pending frame. |
| UseScroll.Apply | hooks/useScroll.ts:10-32 | Every event preserves "requested = frames run + the pending one". |
| UseScroll.Replay | hooks/useScroll.ts:10-32 | Any sequence of events preserves it. |
| UseScroll.Burst | hooks/useScroll.ts:11-23 | A burst of scroll events with no frame requests at most one frame, and none if one was already pending. |
| UseScroll.BurstPending | hooks/useScroll.ts:13-23 | While a frame is pending, scroll events request nothing more. |
| UseScroll.Bounded | hooks/useScroll.ts:13-20 | Frames requested never exceed one per scroll event (plus those already requested). State changes never exceed frames run. |
| UseScroll.BurstThenFrame | hooks/useScroll.ts:15-20 | A burst followed by its frame leaves `isScrolled == (scrollY > threshold)`, with no frame pending and the listener still registered. |
| UseScroll.ScrollsKeepListening | hooks/useScroll.ts:29 | Scroll events alone keep the listener and leave a frame pending. |
| UseScroll.ReplayAppend | hooks/useScroll.ts:10-32 | Replaying a + b is replaying a, then b. |
| UseScroll.Teardown | hooks/useScroll.ts:31 | After cleanup no event changes the reported value or requests a frame. |
| UseScroll.ScrollDetector.constructor | hooks/useScroll.ts:7-29 | The mounted detector is in the `Mount` state, with the given threshold. |
| UseScroll.ScrollDetector.Scroll | hooks/useScroll.ts:13-23 | A scroll event; the new state is `OnScroll` of the old one. |
| UseScroll.ScrollDetector.FrameFires | hooks/useScroll.ts:15-20 | The pending frame runs; the new state is `OnFrame` of the old one, and while mounted `isScrolled == (scrollY > threshold)`. |
| UseScroll.ScrollDetector.Unmount | hooks/useScroll.ts:31 | Cleanup; the new state is `Cleanup` of the old one. |
| Constants.Tinted | constants.tsx:165-177 | Every dedicated style follows one Tailwind pattern in a single colour. Its length is fixed by the colour name, and the colour's first two letters sit right after "bg-". |
| Constants.TagColours | constants.tsx:163-178 | The table keys nine tags by their exact text; every entry names a colour of at least two letters, from which `Tinted` draws its style. |
| Constants.FallbackStyle | constants.tsx:180 | The neutral slate style differs from every tinted style, whatever the colour, so the fallback after the lookup can never be mistaken for a table entry. |
| Constants.GetTagStyle | constants.tsx:162-181 | A keyed tag gets the style of its table entry, and any tag that is not one of the map's own keys gets the neutral style. The neutral style comes back exactly for tags without an entry, because no entry is empty or equal to it. Inherited object keys are not modelled (see Left out). |
| Constants.StylesDistinct | constants.tsx:165-177 | No two keyed tags share a colour or get the same style. |
| Constants.CaseSensitive | constants.tsx:77 | Matching is exact: the skill "Scikit-Learn" gets the neutral style, while the tag "Scikit-learn" gets purple. |
| Constants.NavItems | constants.tsx:5-11 | Five navigation items, each an in-page anchor `#…`, with no two pointing at the same section and no two sharing a name (the header's list keys, components/Header.tsx:48,98). |
| Constants.SkillsData | constants.tsx:49-90 | The skill categories are non-empty, have unique ids, every category has at least one skill, and no two skills of a category share a name (the cards' keys, components/Skills.tsx:69). |
| Constants.ProjectsData | constants.tsx:92-156 | Three projects with unique ids; every tag on a project card has a style of its own, and no project lists a tag twice (the badges' keys, components/ProjectCard.tsx:119). |

## Left out

- View components (Header, Hero, Skills, Projects, ProjectCard, ProjectModal, Contact, Footer, Button, Section, SkillCard, ThemeToggle), `ErrorBoundary`, the entry point and the theme context: they render markup and hold no logic of this kind.
- `SOCIAL_LINKS`, and the skill icon URLs and the project descriptions, images, metrics, links and case-study details: they are only displayed. The tables keep the ids, names, navigation targets, tags, skill descriptions and category and project titles.
- Real time, `setTimeout`/`clearTimeout`, `requestAnimationFrame` and the DOM: replaced by explicit events. A delay is a number attached to the pending timeout; `Elapsed` adds up those delays.
- React's scheduling, batching and StrictMode double effects: each timeout callback's updates are applied together, and an effect re-runs exactly when one of its state dependencies changed.
- Changing props while mounted (a new `words` list, new speeds, a new threshold): the configuration is fixed per mount.
- An empty `words` list: both typewriters index `words[0]` and take `% words.length`, so a non-empty list is a precondition of mounting.
- `window.scrollY` is an integer here; fractional offsets are not modelled.
- The pending animation frame after cleanup: it is modelled as still firing and clearing `ticking`, with its state update ignored, since nothing cancels it.
- Text is a sequence of characters. The UTF-16 code units behind JavaScript's `length`, `slice` and `substring` are not modelled.
- Constants.GetTagStyle: the table is a map of its nine own keys. In JavaScript `styles[tag]` on an object literal also finds keys inherited from `Object.prototype` (`constructor`, `toString`, `__proto__` and the like), whose values are truthy, so `getTagStyle` returns a function or an object for those tags instead of the slate style. The model returns the slate style for them.
