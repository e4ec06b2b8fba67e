/** Skill levels and the rule both markdown readers use to read one from heading text. */
module Levels {
  import opened JsStrings

  /** A resource's skill tier. */
  datatype Level = Beginner | Intermediate | Advanced

  /** The level's name as the scripts spell it: tag, CSS class and `data-filter` value. */
  function Name(l: Level): string {
    match l
    case Beginner => "beginner"
    case Intermediate => "intermediate"
    case Advanced => "advanced"
  }

  /** Distinct levels have distinct names, so comparing names compares levels. */
  lemma NameInjective(a: Level, b: Level)
    requires Name(a) == Name(b)
    ensures a == b
  {
  }

  /**
   * The level a heading announces: `beginner` if its lowercase form contains
   * "beginner", otherwise `advanced` if it contains "advanced", otherwise
   * `intermediate`.
   */
  function LevelOf(heading: string): (l: Level)
    ensures l == Beginner <==> Contains(ToLower(heading), "beginner")
    ensures l == Advanced <==> !Contains(ToLower(heading), "beginner") && Contains(ToLower(heading), "advanced")
  {
    var lower := ToLower(heading);
    if Contains(lower, "beginner") then Beginner
    else if Contains(lower, "advanced") then Advanced
    else Intermediate
  }

  /** A heading without text, as before the first section heading, announces `intermediate`. */
  lemma EmptyHeadingIsIntermediate()
    ensures LevelOf("") == Intermediate
  {
  }

  /** Headings that agree up to letter case announce the same level. */
  lemma LevelOfIgnoresCase(a: string, b: string)
    requires ToLower(a) == ToLower(b)
    ensures LevelOf(a) == LevelOf(b)
  {
  }
}
