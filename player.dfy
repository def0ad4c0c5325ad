/** The commands the page sends to the animation tool's sequence player.
    The player itself is external: the model only records what it is asked
    to do, as a value of type Command. */
module Player {

  datatype Option<+T> = None | Some(value: T)

  /** The four sheets the page obtains from its project. */
  datatype Sheet = KvAnimation | ScrollAnimation | ScrollButtonAnimation | TextLoopAnimation

  /** The playback directions the sequence player accepts. */
  datatype Direction = Normal | Reverse | Alternate | AlternateReverse

  /** The `iterationCount` option: a finite number of runs, or `Infinity`. */
  datatype Iterations = Times(n: nat) | Forever

  /** The options object of `sequence.play`; a field the caller leaves out is None. */
  datatype PlayOptions = PlayOptions(
    iterationCount: Option<Iterations>,
    direction: Option<Direction>,
    rate: Option<real>)

  /** One call `sheet.sequence.play(options)`. */
  datatype Command = Play(sheet: Sheet, options: PlayOptions)

  /** `play()` with no argument. */
  const NO_OPTIONS := PlayOptions(None, None, None)

  /** `play({ direction: "reverse" })`. */
  const REVERSE_ONCE := PlayOptions(None, Some(Reverse), None)

  /** `play({ iterationCount: Infinity, direction: "alternate", rate: 0.8 })`. */
  const ENDLESS_SWING := PlayOptions(Some(Forever), Some(Alternate), Some(0.8))

  const KV_FORWARD := Play(KvAnimation, NO_OPTIONS)
  const TEXT_LOOP := Play(TextLoopAnimation, ENDLESS_SWING)
  const SCROLL_FORWARD := Play(ScrollAnimation, NO_OPTIONS)
  const BUTTON_FORWARD := Play(ScrollButtonAnimation, NO_OPTIONS)
  const SCROLL_BACKWARD := Play(ScrollAnimation, REVERSE_ONCE)
  const BUTTON_BACKWARD := Play(ScrollButtonAnimation, REVERSE_ONCE)

  /** A command that runs its sheet backwards. */
  predicate IsReverse(c: Command) {
    c.options.direction == Some(Reverse)
  }
}
