/**
 * The colour-therapy game: picking colours builds a palette and shows an
 * affirmation drawn from the pool of the colour's mood.
 */
module Palette {
  import opened Text
  import opened Wrappers

  /** The keys of the affirmation table. */
  datatype Mood = Peaceful | Happy | Balanced | Loving | Energized | Wise | Confident | Clear

  /** The key string each mood is stored under. */
  function MoodKey(m: Mood): string {
    match m
    case Peaceful => "peaceful"
    case Happy => "happy"
    case Balanced => "balanced"
    case Loving => "loving"
    case Energized => "energized"
    case Wise => "wise"
    case Confident => "confident"
    case Clear => "clear"
  }

  /** The mood stored under a key string, if any: the inverse of `MoodKey`. */
  function MoodNamed(k: string): (m: Option<Mood>)
    ensures m.Some? ==> MoodKey(m.value) == k
  {
    if k == "peaceful" then Some(Peaceful)
    else if k == "happy" then Some(Happy)
    else if k == "balanced" then Some(Balanced)
    else if k == "loving" then Some(Loving)
    else if k == "energized" then Some(Energized)
    else if k == "wise" then Some(Wise)
    else if k == "confident" then Some(Confident)
    else if k == "clear" then Some(Clear)
    else None
  }

  /**
   * The lookup by mood string is total and unambiguous: every mood's key finds
   * that mood again, so distinct moods have distinct keys.
   */
  lemma LookupTotal()
    ensures forall m: Mood :: MoodNamed(MoodKey(m)) == Some(m)
    ensures forall m, m': Mood :: MoodKey(m) == MoodKey(m') ==> m == m'
  {
    forall m: Mood
      ensures MoodNamed(MoodKey(m)) == Some(m)
    {
    }
    forall m, m': Mood | MoodKey(m) == MoodKey(m')
      ensures m == m'
    {
      assert MoodNamed(MoodKey(m)) == Some(m);
    }
  }

  // ---------------------------------------------------------------------------
  // The colour table

  /** The eight swatches; `Name`, `Value` and `MoodOf` give each one's record fields. */
  datatype Color = CalmBlue | JoyYellow | GrowthGreen | LovePink | PassionRed | WisdomPurple | WarmOrange | PureWhite

  /** The swatches in the order they are laid out. */
  const Colors: seq<Color> := [CalmBlue, JoyYellow, GrowthGreen, LovePink, PassionRed, WisdomPurple, WarmOrange, PureWhite]

  function Name(c: Color): string {
    match c
    case CalmBlue => "Calm Blue"
    case JoyYellow => "Joy Yellow"
    case GrowthGreen => "Growth Green"
    case LovePink => "Love Pink"
    case PassionRed => "Passion Red"
    case WisdomPurple => "Wisdom Purple"
    case WarmOrange => "Warm Orange"
    case PureWhite => "Pure White"
  }

  function Value(c: Color): string {
    match c
    case CalmBlue => "#3b82f6"
    case JoyYellow => "#fbbf24"
    case GrowthGreen => "#10b981"
    case LovePink => "#ec4899"
    case PassionRed => "#ef4444"
    case WisdomPurple => "#8b5cf6"
    case WarmOrange => "#f97316"
    case PureWhite => "#ffffff"
  }

  function MoodOf(c: Color): Mood {
    match c
    case CalmBlue => Peaceful
    case JoyYellow => Happy
    case GrowthGreen => Balanced
    case LovePink => Loving
    case PassionRed => Energized
    case WisdomPurple => Wise
    case WarmOrange => Confident
    case PureWhite => Clear
  }

  /** Every swatch is laid out exactly once. */
  lemma AllListed()
    ensures |Colors| == 8 && forall c: Color :: c in Colors
    ensures forall i, j :: 0 <= i < j < |Colors| ==> Colors[i] != Colors[j]
  {
    forall c: Color
      ensures c in Colors
    {
      match c
      case CalmBlue => assert Colors[0] == c;
      case JoyYellow => assert Colors[1] == c;
      case GrowthGreen => assert Colors[2] == c;
      case LovePink => assert Colors[3] == c;
      case PassionRed => assert Colors[4] == c;
      case WisdomPurple => assert Colors[5] == c;
      case WarmOrange => assert Colors[6] == c;
      case PureWhite => assert Colors[7] == c;
    }
  }

  /** The colour whose swatch value is `v`, if any. */
  function ColorOf(v: string): (c: Option<Color>)
    ensures c.Some? ==> Value(c.value) == v
    ensures c.None? ==> forall d: Color :: Value(d) != v
  {
    AllListed();
    FindColor(Colors, v)
  }

  function FindColor(cs: seq<Color>, v: string): (c: Option<Color>)
    ensures c.Some? ==> c.value in cs && Value(c.value) == v
    ensures c.None? ==> forall d :: d in cs ==> Value(d) != v
  {
    if |cs| == 0 then None
    else if Value(cs[0]) == v then Some(cs[0])
    else FindColor(cs[1..], v)
  }

  /** No two colours share a swatch value: the second and third hex digits already tell them apart. */
  lemma ValueInjective(c: Color, d: Color)
    requires Value(c) == Value(d)
    ensures c == d
  {
    assert Value(c)[1] == Value(d)[1] && Value(c)[2] == Value(d)[2];
  }

  /** Every swatch value finds its own colour again, so no two colours share a value. */
  lemma ValuesDistinct()
    ensures forall c: Color :: ColorOf(Value(c)) == Some(c)
    ensures forall c, d: Color :: Value(c) == Value(d) ==> c == d
  {
    forall c, d: Color | Value(c) == Value(d)
      ensures c == d
    {
      ValueInjective(c, d);
    }
    AllListed();
  }

  // ---------------------------------------------------------------------------
  // The affirmation table

  /** One affirmation: the mood whose pool holds it and its position there. */
  datatype Affirmation = Affirmation(mood: Mood, index: nat)

  /** The ordered affirmation pool stored under a mood. */
  function Pool(m: Mood): (p: seq<Affirmation>)
    ensures |p| == 3
    ensures forall i :: 0 <= i < |p| ==> p[i] == Affirmation(m, i)
  {
    seq(3, i requires 0 <= i < 3 => Affirmation(m, i))
  }

  /**
   * The literal text of each affirmation, pool by pool, in source order. Each
   * text is written as `+`-joined pieces only because the verifier handles
   * short literals much faster than long ones; the joined string is the one
   * the component shows.
   */
  function AffirmationText(a: Affirmation): (t: string)
    requires a.index < 3
  {
    var i := a.index;
    match a.mood
    case Peaceful =>
      if i == 0 then
        "You are at peace "
        + "with yourself "
        + "and the world "
        + "around you."
      else if i == 1 then
        "Calmness flows "
        + "through you like "
        + "a gentle river."
      else
        "You find "
        + "tranquility in "
        + "every breath you "
        + "take."
    case Happy =>
      if i == 0 then
        "Joy radiates "
        + "from within you "
        + "and touches "
        + "everyone you "
        + "meet."
      else if i == 1 then
        "You are a beacon "
        + "of positivity "
        + "and light."
      else
        "Happiness is "
        + "your natural "
        + "state of being."
    case Balanced =>
      if i == 0 then
        "You are growing "
        + "stronger and "
        + "wiser every day."
      else if i == 1 then
        "Balance comes "
        + "naturally to you "
        + "in all aspects "
        + "of life."
      else
        "You are rooted "
        + "in strength and "
        + "reaching for "
        + "your dreams."
    case Loving =>
      if i == 0 then
        "You are worthy "
        + "of love and you "
        + "give love "
        + "freely."
      else if i == 1 then
        "Your heart is "
        + "open to "
        + "receiving and "
        + "sharing "
        + "beautiful "
        + "moments."
      else
        "Love surrounds "
        + "you and flows "
        + "through you."
    case Energized =>
      if i == 0 then
        "You have the "
        + "power to create "
        + "positive change "
        + "in your life."
      else if i == 1 then
        "Your passion "
        + "fuels your "
        + "purpose and "
        + "drives you "
        + "forward."
      else
        "You are strong, "
        + "capable, and "
        + "ready for "
        + "anything."
    case Wise =>
      if i == 0 then
        "You possess "
        + "inner wisdom "
        + "that guides you "
        + "on your path."
      else if i == 1 then
        "Your intuition "
        + "is strong and "
        + "you trust your "
        + "inner voice."
      else
        "You see the "
        + "beauty and "
        + "lessons in every "
        + "experience."
    case Confident =>
      if i == 0 then
        "You radiate "
        + "confidence and "
        + "warmth wherever "
        + "you go."
      else if i == 1 then
        "You believe in "
        + "yourself and "
        + "your ability to "
        + "succeed."
      else
        "You are "
        + "comfortable "
        + "being "
        + "authentically "
        + "you."
    case Clear =>
      if i == 0 then
        "Your mind is "
        + "clear and "
        + "focused on what "
        + "matters most."
      else if i == 1 then
        "You see "
        + "situations with "
        + "clarity and "
        + "wisdom."
      else
        "You have a fresh "
        + "perspective on "
        + "life's "
        + "opportunities."
  }

  /** No affirmation is the empty string. */
  lemma AffirmationsNonEmpty(a: Affirmation)
    requires a.index < 3
    ensures AffirmationText(a) != ""
  {
    var i := a.index;
    match a.mood
    case Peaceful =>
    case Happy =>
    case Balanced =>
    case Loving =>
    case Energized =>
    case Wise =>
    case Confident =>
    case Clear =>
  }

  // ---------------------------------------------------------------------------
  // The canvas

  /**
   * The palette built so far, as the colours picked (their swatch values are
   * `Values(selected)`; `ValuesDistinct` shows the values determine the
   * colours), and the affirmation on display, if any.
   */
  datatype Canvas = Canvas(selected: seq<Color>, affirmation: Option<Affirmation>)

  const Init: Canvas := Canvas([], None)

  /** The swatch values of a run of colours, in order. */
  function Values(cs: seq<Color>): (vs: seq<string>)
    ensures |vs| == |cs| && forall i :: 0 <= i < |cs| ==> vs[i] == Value(cs[i])
  {
    seq(|cs|, i requires 0 <= i < |cs| => Value(cs[i]))
  }

  /** The text on screen: the affirmation's text, or "" when none is shown. */
  function Shown(s: Canvas): string
    requires s.affirmation.Some? ==> s.affirmation.value.index < 3
  {
    if s.affirmation.Some? then AffirmationText(s.affirmation.value) else ""
  }

  /**
   * `handleColorSelect` with `Math.random() = r`: the colour goes on the end
   * of the palette and an affirmation from its mood's pool is shown.
   */
  function SelectColor(s: Canvas, c: Color, r: real): (s': Canvas)
    requires 0.0 <= r < 1.0
    ensures s'.selected == s.selected + [c]
    ensures s'.affirmation.Some? && s'.affirmation.value in Pool(MoodOf(c))
  {
    Canvas(s.selected + [c], Some(Pick(Pool(MoodOf(c)), r)))
  }

  /** On screen, picking a colour appends exactly its swatch value to the drawn values. */
  lemma SelectAppendsValue(s: Canvas, c: Color, r: real)
    requires 0.0 <= r < 1.0
    ensures Values(SelectColor(s, c, r).selected) == Values(s.selected) + [Value(c)]
  {
  }

  /** `clearCanvas`: empty palette, no affirmation. */
  function ClearCanvas(s: Canvas): (s': Canvas)
    ensures s'.selected == [] && s'.affirmation.None?
  {
    Init
  }

  /** A run of selections, one random value each. */
  function SelectAll(s: Canvas, cs: seq<Color>, rs: seq<real>): Canvas
    requires |cs| == |rs|
    requires forall i :: 0 <= i < |rs| ==> 0.0 <= rs[i] < 1.0
    decreases |cs|
  {
    if |cs| == 0 then s else SelectAll(SelectColor(s, cs[0], rs[0]), cs[1..], rs[1..])
  }

  /**
   * Selecting colours only ever appends: the palette is the old one followed
   * by the picked colours in order, and the last one decides the mood shown.
   */
  lemma {:induction false} SelectionsAppend(s: Canvas, cs: seq<Color>, rs: seq<real>)
    requires |cs| == |rs|
    requires forall i :: 0 <= i < |rs| ==> 0.0 <= rs[i] < 1.0
    ensures SelectAll(s, cs, rs).selected == s.selected + cs
    ensures |cs| > 0 ==> SelectAll(s, cs, rs).affirmation.Some? && SelectAll(s, cs, rs).affirmation.value.mood == MoodOf(cs[|cs| - 1])
    decreases |cs|
  {
    if |cs| > 0 {
      var s1 := SelectColor(s, cs[0], rs[0]);
      SelectionsAppend(s1, cs[1..], rs[1..]);
      assert s.selected + [cs[0]] + cs[1..] == s.selected + cs;
    }
  }

  /** Every affirmation of the colour's pool can be the one shown. */
  lemma EveryAffirmationReachable(s: Canvas, c: Color, k: nat)
    requires k < 3
    ensures exists r: real :: 0.0 <= r < 1.0 && SelectColor(s, c, r).affirmation == Some(Affirmation(MoodOf(c), k))
  {
    var pool := Pool(MoodOf(c));
    PickCovers(pool, k);
    var r := k as real / |pool| as real;
    assert SelectColor(s, c, r).affirmation == Some(pool[k]);
  }

  // ---------------------------------------------------------------------------
  // Screen invariant

  /**
   * What the screen can show: an affirmation appears exactly when the palette
   * is non-empty, and it belongs to the mood of the most recently picked colour,
   * which the last swatch value on screen identifies.
   */
  ghost predicate Valid(s: Canvas) {
    && (s.affirmation.Some? <==> |s.selected| > 0)
    && (s.affirmation.Some? ==> s.affirmation.value.index < 3 && s.affirmation.value.mood == MoodOf(s.selected[|s.selected| - 1]))
  }

  lemma InitValid()
    ensures Valid(Init) && Shown(Init) == ""
  {
  }

  /** In a consistent state, text is on screen exactly when the palette is non-empty. */
  lemma ShownIffPicked(s: Canvas)
    requires Valid(s)
    ensures Shown(s) != "" <==> |s.selected| > 0
  {
    if s.affirmation.Some? {
      AffirmationsNonEmpty(s.affirmation.value);
    }
  }

  /** The mood on screen can be recovered from the last swatch value drawn. */
  lemma MoodFromLastValue(s: Canvas)
    requires Valid(s) && |s.selected| > 0
    ensures var v := Values(s.selected)[|s.selected| - 1];
      ColorOf(v).Some? && s.affirmation.value.mood == MoodOf(ColorOf(v).value)
  {
    ValuesDistinct();
  }

  /** Picking a colour and clearing the canvas keep the screen consistent. */
  lemma EventsPreserveValid(s: Canvas, c: Color, r: real)
    requires Valid(s)
    requires 0.0 <= r < 1.0
    ensures Valid(SelectColor(s, c, r))
    ensures Valid(ClearCanvas(s))
  {
  }
}
