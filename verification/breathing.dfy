/**
 * The guided-breathing timer: a three-phase countdown cycling
 * inhale -> hold -> exhale -> inhale over one of four fixed presets.
 */
module Breathing {

  datatype Phase = Inhale | Hold | Exhale

  /** The four preset keys '4-4-4', '4-7-8', '6-2-6' and '5-5-5'. */
  datatype PatternKey = Box | Relaxing | Calming | Balanced

  datatype Pattern = Pattern(inhale: nat, hold: nat, exhale: nat, name: string)

  function PatternOf(k: PatternKey): Pattern {
    match k
    case Box => Pattern(4, 4, 4, "Box Breathing")
    case Relaxing => Pattern(4, 7, 8, "Relaxing Breath")
    case Calming => Pattern(6, 2, 6, "Calming Breath")
    case Balanced => Pattern(5, 5, 5, "Balanced Breath")
  }

  /** The key under which each preset is stored. */
  function Label(k: PatternKey): string {
    match k
    case Box => "4-4-4"
    case Relaxing => "4-7-8"
    case Calming => "6-2-6"
    case Balanced => "5-5-5"
  }

  function Duration(p: Pattern, ph: Phase): nat {
    match ph
    case Inhale => p.inhale
    case Hold => p.hold
    case Exhale => p.exhale
  }

  function NextPhase(ph: Phase): Phase {
    match ph
    case Inhale => Hold
    case Hold => Exhale
    case Exhale => Inhale
  }

  /** Length of one full inhale-hold-exhale cycle, in seconds. */
  function Period(k: PatternKey): nat {
    var p := PatternOf(k);
    p.inhale + p.hold + p.exhale
  }

  datatype State = State(active: bool, phase: Phase, timeLeft: int, cycle: int, selected: PatternKey)

  /** The component's initial state. */
  const Init: State := State(false, Inhale, 4, 0, Box)

  /** The pattern the current render reads. */
  function Current(s: State): Pattern {
    PatternOf(s.selected)
  }

  // ---------------------------------------------------------------------------
  // Events

  /**
   * The 1000 ms interval callback. The interval is only registered while the
   * timer is running with time left; otherwise no callback is pending and the
   * state stays as it is.
   */
  function Tick(s: State): (s': State)
    ensures s.active && s.timeLeft > 0 ==> s' == s.(timeLeft := s.timeLeft - 1)
    ensures !(s.active && s.timeLeft > 0) ==> s' == s
  {
    if s.active && s.timeLeft > 0 then s.(timeLeft := s.timeLeft - 1) else s
  }

  /**
   * The effect's immediate branch once the countdown has reached zero: move to
   * the next phase and load its duration; the cycle counter moves only on the
   * exhale -> inhale wrap.
   */
  function Advance(s: State): (s': State)
    ensures s.active && s.timeLeft == 0 ==>
      && s'.phase == NextPhase(s.phase)
      && s'.timeLeft == Duration(Current(s), s'.phase)
      && s'.cycle == (if s.phase == Exhale then s.cycle + 1 else s.cycle)
      && s'.active == s.active && s'.selected == s.selected
    ensures !(s.active && s.timeLeft == 0) ==> s' == s
  {
    if s.active && s.timeLeft == 0 then
      match s.phase
      case Inhale => s.(phase := Hold, timeLeft := Current(s).hold)
      case Hold => s.(phase := Exhale, timeLeft := Current(s).exhale)
      case Exhale => s.(phase := Inhale, timeLeft := Current(s).inhale, cycle := s.cycle + 1)
    else s
  }

  /**
   * One second of wall time: the interval fires, and a zero is acted on at
   * once. A paused timer stays as it is; otherwise the countdown drops by one,
   * or from its last second straight to the next phase's full duration.
   */
  function Second(s: State): (s': State)
    ensures !s.active ==> s' == s
    ensures s.active && s.timeLeft > 1 ==> s' == s.(timeLeft := s.timeLeft - 1)
    ensures s.active && s.timeLeft == 1 ==>
      && s'.phase == NextPhase(s.phase)
      && s'.timeLeft == Duration(Current(s), s'.phase)
      && s'.cycle == s.cycle + (if s.phase == Exhale then 1 else 0)
      && s'.active && s'.selected == s.selected
  {
    Advance(Tick(s))
  }

  /** `n` seconds of wall time. */
  function Run(s: State, n: nat): State
    decreases n
  {
    if n == 0 then s else Run(Second(s), n - 1)
  }

  /** `startBreathing`: resume where the countdown stands, or restart at inhale from zero. */
  function Start(s: State): (s': State)
    ensures s'.active && s'.cycle == s.cycle && s'.selected == s.selected
    ensures s.timeLeft != 0 ==> s'.phase == s.phase && s'.timeLeft == s.timeLeft
    ensures s.timeLeft == 0 ==> s'.phase == Inhale && s'.timeLeft == Current(s).inhale
  {
    if s.timeLeft == 0 then s.(active := true, timeLeft := Current(s).inhale, phase := Inhale)
    else s.(active := true)
  }

  /** `pauseBreathing`: only the running flag changes. */
  function Pause(s: State): (s': State)
    ensures !s'.active && s' == s.(active := false)
  {
    s.(active := false)
  }

  /** `resetBreathing`: stopped, at inhale, with the inhale duration of the pattern it reads. */
  function Reset(s: State): (s': State)
    ensures !s'.active && s'.phase == Inhale && s'.cycle == 0
    ensures s'.timeLeft == Current(s).inhale && s'.selected == s.selected
  {
    State(false, Inhale, Current(s).inhale, 0, s.selected)
  }

  /**
   * The pattern button: it stores the new key and then runs the reset of the
   * render it was created in, which still reads the previous pattern. The
   * countdown is therefore loaded with the OLD pattern's inhale duration.
   */
  function SelectPattern(s: State, k: PatternKey): (s': State)
    ensures s'.selected == k
    ensures !s'.active && s'.phase == Inhale && s'.cycle == 0
    ensures s'.timeLeft == PatternOf(s.selected).inhale
  {
    Reset(s).(selected := k)
  }

  // ---------------------------------------------------------------------------
  // Properties

  /** The four presets and their durations. */
  lemma Presets()
    ensures forall k: PatternKey :: PatternOf(k).inhale > 0 && PatternOf(k).hold > 0 && PatternOf(k).exhale > 0
    ensures (PatternOf(Box).inhale, PatternOf(Box).hold, PatternOf(Box).exhale) == (4, 4, 4)
    ensures (PatternOf(Relaxing).inhale, PatternOf(Relaxing).hold, PatternOf(Relaxing).exhale) == (4, 7, 8)
    ensures (PatternOf(Calming).inhale, PatternOf(Calming).hold, PatternOf(Calming).exhale) == (6, 2, 6)
    ensures (PatternOf(Balanced).inhale, PatternOf(Balanced).hold, PatternOf(Balanced).exhale) == (5, 5, 5)
    ensures forall k, k': PatternKey :: Label(k) == Label(k') ==> k == k'
  {
  }

  /**
   * The states reachable by the events: the countdown is always between 1 and
   * the longest preset duration (8), and the cycle count is never negative.
   */
  ghost predicate Valid(s: State) {
    1 <= s.timeLeft <= 8 && s.cycle >= 0
  }

  /** The first render: paused at inhale with 4 seconds, no cycle yet, box pattern "4-4-4". */
  lemma InitValid()
    ensures Valid(Init) && Init.timeLeft == Current(Init).inhale && Label(Init.selected) == "4-4-4"
    ensures !Init.active && Init.phase == Inhale && Init.timeLeft == 4 && Init.cycle == 0
  {
  }

  /** Every event keeps the state valid; in particular the countdown never goes negative. */
  lemma EventsPreserveValid(s: State, k: PatternKey)
    requires Valid(s)
    ensures Valid(Second(s)) && Valid(Start(s)) && Valid(Pause(s))
    ensures Valid(Reset(s)) && Valid(SelectPattern(s, k))
  {
  }

  /** While stopped, time passing changes nothing. */
  lemma {:induction false} InactiveIsFrozen(s: State, n: nat)
    requires !s.active
    ensures Run(s, n) == s
    decreases n
  {
    if n > 0 {
      InactiveIsFrozen(Second(s), n - 1);
    }
  }

  /** Pausing then resuming keeps the phase and the time left. */
  lemma PauseThenStart(s: State)
    requires Valid(s) && s.active
    ensures Start(Pause(s)) == s
  {
  }

  /** In a valid state, one second either just counts down or completes a phase. */
  lemma SecondSteps(s: State)
    requires Valid(s) && s.active
    ensures s.timeLeft > 1 ==> Second(s) == s.(timeLeft := s.timeLeft - 1)
    ensures s.timeLeft == 1 ==>
      && Second(s).phase == NextPhase(s.phase)
      && Second(s).timeLeft == Duration(Current(s), Second(s).phase)
    ensures Second(s).cycle == s.cycle + (if s.phase == Exhale && s.timeLeft == 1 then 1 else 0)
  {
  }

  lemma {:induction false} RunAdd(s: State, a: nat, b: nat)
    ensures Run(s, a + b) == Run(Run(s, a), b)
    decreases a
  {
    if a > 0 {
      RunAdd(Second(s), a - 1, b);
    }
  }

  /** A running phase with `t` seconds left ends after exactly `t` seconds. */
  lemma {:induction false} Countdown(s: State, n: nat)
    requires s.active && 1 <= n <= s.timeLeft
    ensures n < s.timeLeft ==> Run(s, n) == s.(timeLeft := s.timeLeft - n)
    ensures n == s.timeLeft ==> Run(s, n) == Advance(s.(timeLeft := 0))
    decreases n
  {
    if n > 1 {
      Countdown(Second(s), n - 1);
    }
  }

  /** A full cycle from the start of an inhale returns to it with one more cycle counted. */
  lemma FullCycle(s: State)
    requires s.active && s.phase == Inhale && s.timeLeft == Current(s).inhale && s.cycle >= 0
    ensures Run(s, Period(s.selected)) == s.(cycle := s.cycle + 1)
  {
    var p := Current(s);
    assert p.inhale > 0 && p.hold > 0 && p.exhale > 0 by {
      Presets();
    }
    Countdown(s, p.inhale);
    var h := Run(s, p.inhale);
    assert h == s.(phase := Hold, timeLeft := p.hold);
    Countdown(h, p.hold);
    var e := Run(h, p.hold);
    assert e == s.(phase := Exhale, timeLeft := p.exhale);
    Countdown(e, p.exhale);
    assert Run(e, p.exhale) == s.(cycle := s.cycle + 1);
    RunAdd(s, p.inhale, p.hold);
    assert Run(s, p.inhale + p.hold) == e;
    RunAdd(s, p.inhale + p.hold, p.exhale);
  }

  /** Box breathing started from the initial state: after 12 seconds, one cycle is done. */
  lemma TwelveSecondsOfBox()
    ensures Run(Start(Init), 12) == State(true, Inhale, 4, 1, Box)
  {
    FullCycle(Start(Init));
  }

  /**
   * The stale reset on a pattern change: switching from box breathing to the
   * calming pattern loads 4 seconds, not the calming inhale of 6; the first
   * inhale then runs 4 seconds and the following phases use the new pattern.
   */
  lemma SelectUsesPreviousInhale()
    ensures SelectPattern(Init, Calming).timeLeft == 4 != PatternOf(Calming).inhale
    ensures Run(Start(SelectPattern(Init, Calming)), 4) == State(true, Hold, 2, 0, Calming)
  {
    Countdown(Start(SelectPattern(Init, Calming)), 4);
  }

  /** Reset from any state restores the fresh state of the current pattern. */
  lemma ResetRestores(s: State, t: State)
    requires s.selected == t.selected
    ensures Reset(s) == Reset(t)
    ensures Reset(Reset(s)) == Reset(s)
  {
  }
}
