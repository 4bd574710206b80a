/** The vibe classifier: five fixed vibe records and the ordered chain of
    threshold rules that picks one of them from the colour statistics. */
module Vibes {
  import opened ColorSampler

  /** A vibe as shown to the user; `mood` keys the song database. */
  datatype Vibe = Vibe(name: string, description: string, mood: string, emoji: string)

  const EnergeticBright := Vibe("Energetic & Bright", "High energy, vibrant colors detected", "upbeat", "\U{26A1}")
  const MoodyDark := Vibe("Moody & Dark", "Dark, contemplative atmosphere", "chill", "\U{1F319}")
  const WarmPassionate := Vibe("Warm & Passionate", "Warm tones, passionate vibes", "romantic", "\U{1F525}")
  const CoolCalm := Vibe("Cool & Calm", "Cool blue tones, peaceful energy", "relaxed", "\U{1F30A}")
  const BalancedHarmonious := Vibe("Balanced & Harmonious", "Well-balanced colors and tones", "balanced", "\U{2696}\U{FE0F}")

  /** Every vibe the classifier knows. */
  const AllVibes: set<Vibe> := {EnergeticBright, MoodyDark, WarmPassionate, CoolCalm, BalancedHarmonious}

  /** The classifier: five rules tried in order, the first that holds wins. */
  function DetermineVibe(s: ColorStats): (v: Vibe)
    ensures v in AllVibes
  {
    if s.brightness > 180.0 && s.saturation > 100.0 then EnergeticBright
    else if s.brightness < 100.0 then MoodyDark
    else if s.avgR > s.avgG && s.avgR > s.avgB then WarmPassionate
    else if s.avgB > s.avgR && s.avgB > s.avgG then CoolCalm
    else BalancedHarmonious
  }

  /** No two vibes share a mood, so the mood identifies the vibe. */
  lemma MoodsIdentifyVibes(v: Vibe, w: Vibe)
    requires v in AllVibes && w in AllVibes
    ensures v.mood == w.mood <==> v == w
  {
  }

  // The same classifier as an explicit table of (condition, vibe) rules.

  datatype Condition = BrightAndSaturated | Dark | RedDominant | BlueDominant

  predicate Holds(c: Condition, s: ColorStats) {
    match c
    case BrightAndSaturated => s.brightness > 180.0 && s.saturation > 100.0
    case Dark => s.brightness < 100.0
    case RedDominant => s.avgR > s.avgG && s.avgR > s.avgB
    case BlueDominant => s.avgB > s.avgR && s.avgB > s.avgG
  }

  datatype Rule = Rule(condition: Condition, vibe: Vibe)

  /** The rules in priority order; when none holds the result is `Fallback`. */
  const Rules: seq<Rule> := [
    Rule(BrightAndSaturated, EnergeticBright),
    Rule(Dark, MoodyDark),
    Rule(RedDominant, WarmPassionate),
    Rule(BlueDominant, CoolCalm)
  ]

  const Fallback := BalancedHarmonious

  /** The index of the first rule that holds, or |rules| when none does. */
  function FirstMatch(rules: seq<Rule>, s: ColorStats): (i: nat)
    ensures i <= |rules|
    ensures forall j :: 0 <= j < i ==> !Holds(rules[j].condition, s)
    ensures i < |rules| ==> Holds(rules[i].condition, s)
    decreases |rules|
  {
    if |rules| == 0 then 0
    else if Holds(rules[0].condition, s) then 0
    else 1 + FirstMatch(rules[1..], s)
  }

  /** First-match-wins evaluation of a rule table. */
  function Classify(rules: seq<Rule>, fallback: Vibe, s: ColorStats): Vibe {
    var i := FirstMatch(rules, s);
    if i < |rules| then rules[i].vibe else fallback
  }

  /** The classifier is exactly first-match-wins over the rule table. */
  lemma DetermineVibeIsFirstMatch(s: ColorStats)
    ensures DetermineVibe(s) == Classify(Rules, Fallback, s)
  {
    var i := FirstMatch(Rules, s);
    if i == 0 {
    } else if i == 1 {
      assert !Holds(Rules[0].condition, s);
    } else if i == 2 {
      assert !Holds(Rules[0].condition, s) && !Holds(Rules[1].condition, s);
    } else if i == 3 {
      assert !Holds(Rules[0].condition, s) && !Holds(Rules[1].condition, s);
      assert !Holds(Rules[2].condition, s);
    } else {
      assert !Holds(Rules[0].condition, s) && !Holds(Rules[1].condition, s);
      assert !Holds(Rules[2].condition, s) && !Holds(Rules[3].condition, s);
    }
  }

  /** A bright, saturated image is energetic whatever its colour balance:
      the first rule shadows the colour-dominance rules. */
  lemma BrightAndSaturatedWins(s: ColorStats)
    requires s.brightness > 180.0 && s.saturation > 100.0
    ensures DetermineVibe(s) == EnergeticBright
    ensures DetermineVibe(s).mood == "upbeat"
  {
  }

  /** A dark image is moody, whatever its saturation and colours. */
  lemma DarkIsChill(s: ColorStats)
    requires s.brightness < 100.0
    ensures DetermineVibe(s) == MoodyDark
    ensures DetermineVibe(s).mood == "chill"
  {
  }

  /** Moody & Dark is chosen exactly for brightness below 100; brightness of
      exactly 100 falls through to the colour rules. */
  lemma ChillIffDark(s: ColorStats)
    ensures DetermineVibe(s) == MoodyDark <==> s.brightness < 100.0
    ensures s.brightness == 100.0 ==> DetermineVibe(s) != MoodyDark
  {
  }

  /** The warm and cool vibes need strict dominance of red or blue, and are
      chosen exactly when that dominance holds and the first two rules do not. */
  lemma ColourRulesNeedStrictDominance(s: ColorStats)
    ensures DetermineVibe(s) == WarmPassionate <==>
      && !(s.brightness > 180.0 && s.saturation > 100.0) && s.brightness >= 100.0
      && s.avgR > s.avgG && s.avgR > s.avgB
    ensures DetermineVibe(s) == CoolCalm <==>
      && !(s.brightness > 180.0 && s.saturation > 100.0) && s.brightness >= 100.0
      && s.avgB > s.avgR && s.avgB > s.avgG
  {
  }

  /** When the first two rules do not apply and the largest channel average
      is shared by two channels, nothing dominates and the vibe is balanced. */
  lemma TopChannelTieIsBalanced(s: ColorStats)
    requires !(s.brightness > 180.0 && s.saturation > 100.0) && s.brightness >= 100.0
    requires || (s.avgR == s.avgG && s.avgG >= s.avgB)
             || (s.avgR == s.avgB && s.avgB >= s.avgG)
             || (s.avgG == s.avgB && s.avgB >= s.avgR)
    ensures DetermineVibe(s) == BalancedHarmonious
  {
  }
}
