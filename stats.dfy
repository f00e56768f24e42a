/** The persisted play statistics and the day boundary applied when they are loaded (new.go). */
module Stats {
  datatype GameStats = GameStats(
    totalPlayTimeSec: int,
    todayPlayTimeSec: int,
    lastLoginDate: string,
    fishCaught: int,
    pacmanWinsToday: int)

  /** The zero value of the Go struct, which the stats hold when no file was read. */
  const EmptyStats := GameStats(0, 0, "", 0, 0)

  /**
   * The date check in LoadData: on a new day the "today" counters restart at 0
   * and the date becomes `today`; the lifetime counters are kept.
   */
  function DailyReset(s: GameStats, today: string): (r: GameStats)
    ensures r.lastLoginDate == today
    ensures r.totalPlayTimeSec == s.totalPlayTimeSec && r.fishCaught == s.fishCaught
    ensures s.lastLoginDate == today ==> r == s
    ensures s.lastLoginDate != today ==> r.todayPlayTimeSec == 0 && r.pacmanWinsToday == 0
  {
    if s.lastLoginDate != today then
      s.(todayPlayTimeSec := 0, pacmanWinsToday := 0, lastLoginDate := today)
    else s
  }

  /** Loading twice on the same day resets no more than loading once. */
  lemma DailyResetIdempotent(s: GameStats, today: string)
    ensures DailyReset(DailyReset(s, today), today) == DailyReset(s, today)
  {
  }
}
