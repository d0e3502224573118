/** Behavior frames: the host's command (host/protocol.py) and the device's checks on a decoded one
    (device/src/behavior.rs). */
module Behavior {
  import opened Common

  datatype Mood = Calm | Curious | Happy | Sleepy | Worried | Alert

  datatype Animation = Idle | Blink | LookAround | Confused | Walk | Happy | Play | Excited | Sleepy | Nap
                     | Worried | Alert

  datatype Command = Command(mood: Mood, animation: Animation, text: Option<string>, alert: bool, durationMs: int)

  const MIN_DURATION_MS := 1_000
  const MAX_DURATION_MS := 15_000
  const TEXT_MAX_LEN := 24

  /** ANIMATION_TO_MOOD */
  function MoodOf(a: Animation): Mood {
    match a
    case Idle => Calm
    case Blink => Calm
    case LookAround => Curious
    case Confused => Curious
    case Walk => Curious
    case Happy => Mood.Happy
    case Play => Mood.Happy
    case Excited => Mood.Happy
    case Sleepy => Mood.Sleepy
    case Nap => Mood.Sleepy
    case Worried => Mood.Worried
    case Alert => Mood.Alert
  }

  function MoodName(m: Mood): string {
    match m
    case Calm => "calm"
    case Curious => "curious"
    case Happy => "happy"
    case Sleepy => "sleepy"
    case Worried => "worried"
    case Alert => "alert"
  }

  function AnimationName(a: Animation): string {
    match a
    case Idle => "idle"
    case Blink => "blink"
    case LookAround => "look_around"
    case Confused => "confused"
    case Walk => "walk"
    case Happy => "happy"
    case Play => "play"
    case Excited => "excited"
    case Sleepy => "sleepy"
    case Nap => "nap"
    case Worried => "worried"
    case Alert => "alert"
  }

  /** The text on the wire: empty if there is none. */
  function TextOf(c: Command): string {
    if c.text.Some? then c.text.value else ""
  }

  predicate TextOk(text: Option<string>) {
    text.Some? ==>
      && 0 < |text.value| <= TEXT_MAX_LEN && Printable(text.value)
      && text.value[0] != ' ' && text.value[|text.value| - 1] != ' '
  }

  /** What host validation lets through. */
  predicate HostValid(c: Command) {
    && c.mood == MoodOf(c.animation)
    && (c.alert <==> c.animation == Animation.Alert)
    && MIN_DURATION_MS <= c.durationMs <= MAX_DURATION_MS
    && TextOk(c.text)
  }
}
