/** The skills and stats of a player (src/enums.h `skills_t`, `SpecialSkills_t`, `stats_t`). */
module Enums {

  const SKILLS: nat := 7
  const SPECIAL_SKILLS: nat := 6
  const STATS: nat := 4

  /** A stat that nothing reads, and that no percentage changes. */
  const STAT_SOULPOINTS: nat := 2
}
