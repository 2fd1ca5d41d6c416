/** The parameters both typewriters take from their caller: the word list and
    three per-step delays in milliseconds. Wall-clock time is not modelled;
    a delay is only a number attached to the timer that is pending. */
module Timing {

  /** Default delays, the same in components/TypewriterText.tsx and hooks/useTypewriter.ts. */
  const DefaultTypingSpeed: nat := 100
  const DefaultDeletingSpeed: nat := 50
  const DefaultPauseTime: nat := 2000

  datatype Config = Config(words: seq<string>, typingSpeed: nat, deletingSpeed: nat, pauseTime: nat)

  /** A caller that passes only the word list. */
  function WithDefaults(words: seq<string>): (c: Config)
    ensures c.words == words
    ensures c.typingSpeed == 100 && c.deletingSpeed == 50 && c.pauseTime == 2000
  {
    Config(words, DefaultTypingSpeed, DefaultDeletingSpeed, DefaultPauseTime)
  }
}
