/** Usage statistics (src-tauri/src/storage/stats.rs): loading them with a
    fallback to zeros, and recording one transcription into the totals, the
    day's entry and the language counts. The JSON file is its decoded
    content: missing, unparseable or a stored value. */
module Stats {
  import opened Wrappers

  /** `DailyStats`. */
  datatype DailyStats = DailyStats(words: nat, transcriptions: nat, durationSecs: real)

  const ZeroDay: DailyStats := DailyStats(0, 0, 0.0)

  /** `UsageStats`; days are keyed by their "%Y-%m-%d" date. */
  datatype UsageStats = UsageStats(
    totalWords: nat,
    totalTranscriptions: nat,
    totalDurationSecs: real,
    dailyStats: map<string, DailyStats>,
    languagesUsed: map<string, nat>)

  /** `UsageStats::default()`. */
  const DefaultStats: UsageStats := UsageStats(0, 0, 0.0, map[], map[])

  /** What reading `stats.json` finds. A file that cannot be read is read as
      the empty string, so it counts as unparseable. */
  datatype StatsFile = Missing | Unparseable | Stored(stats: UsageStats)

  /** `load_stats`. */
  function LoadStats(file: StatsFile): (s: UsageStats)
    ensures file.Stored? ==> s == file.stats
    ensures !file.Stored? ==> s == DefaultStats
  {
    if file.Stored? then file.stats else DefaultStats
  }

  /** The day's entry, zeros when the day has none yet. */
  function DayOf(s: UsageStats, day: string): DailyStats {
    if day in s.dailyStats then s.dailyStats[day] else ZeroDay
  }

  /** How often a language was used, 0 when never. */
  function LanguageCount(s: UsageStats, language: string): nat {
    if language in s.languagesUsed then s.languagesUsed[language] else 0
  }

  /** The in-memory update of `record_transcription` on the day `today`. */
  function Recorded(s: UsageStats, today: string, wordCount: nat, durationSecs: real,
                    language: Option<string>): UsageStats
  {
    var day := DayOf(s, today);
    var languages := match language
      case Some(l) => s.languagesUsed[l := LanguageCount(s, l) + 1]
      case None => s.languagesUsed;
    UsageStats(s.totalWords + wordCount, s.totalTranscriptions + 1, s.totalDurationSecs + durationSecs,
               s.dailyStats[today := DailyStats(day.words + wordCount, day.transcriptions + 1,
                                                day.durationSecs + durationSecs)],
               languages)
  }

  // ---------------------------------------------------------------------
  // Daily sums

  /** The counters a day holds that the totals sum up. */
  datatype Counter = WordsCounter | TranscriptionsCounter

  function Count(d: DailyStats, c: Counter): nat {
    match c
    case WordsCounter => d.words
    case TranscriptionsCounter => d.transcriptions
  }

  function Total(s: UsageStats, c: Counter): nat {
    match c
    case WordsCounter => s.totalWords
    case TranscriptionsCounter => s.totalTranscriptions
  }

  /** The counter summed over all days. */
  ghost function DailySum(days: map<string, DailyStats>, c: Counter): nat
    decreases |days|
  {
    if days == map[] then 0
    else
      var d :| d in days;
      Count(days[d], c) + DailySum(days - {d}, c)
  }

  /** The totals agree with the sums of the days. */
  ghost predicate Consistent(s: UsageStats) {
    DailySum(s.dailyStats, WordsCounter) == s.totalWords &&
    DailySum(s.dailyStats, TranscriptionsCounter) == s.totalTranscriptions
  }

  /** The storage file: what `stats.json` holds now. */
  class StatsStorage {
    var file: StatsFile

    /** What the file holds is consistent, or it holds nothing usable. */
    ghost predicate Valid()
      reads this
    {
      file.Stored? ==> Consistent(file.stats)
    }

    constructor(file: StatsFile)
      ensures this.file == file
    {
      this.file := file;
    }

    /** `load_stats`. */
    method Load() returns (s: UsageStats)
      ensures s == LoadStats(file)
    {
      if file.Stored? {
        s := file.stats;
      } else {
        s := DefaultStats;
      }
    }

    /** `record_transcription`, on the day `today`, with the outcome of
        writing the file: the stats are loaded, updated and saved; a failed
        write leaves the file as it was. */
    method RecordTranscription(today: string, wordCount: nat, durationSecs: real, language: Option<string>,
                               written: Outcome) returns (r: Outcome)
      modifies this
      ensures old(Valid()) ==> Valid()
      ensures r == written
      ensures written.Pass? ==>
                file == Stored(Recorded(LoadStats(old(file)), today, wordCount, durationSecs, language))
      ensures written.Fail? ==> file == old(file)
    {
      var stats := Load();
      ghost var loaded := stats;
      stats := stats.(totalWords := stats.totalWords + wordCount);
      stats := stats.(totalTranscriptions := stats.totalTranscriptions + 1);
      stats := stats.(totalDurationSecs := stats.totalDurationSecs + durationSecs);
      var daily := if today in stats.dailyStats then stats.dailyStats[today] else ZeroDay;
      daily := daily.(words := daily.words + wordCount);
      daily := daily.(transcriptions := daily.transcriptions + 1);
      daily := daily.(durationSecs := daily.durationSecs + durationSecs);
      stats := stats.(dailyStats := stats.dailyStats[today := daily]);
      if language.Some? {
        var count := if language.value in stats.languagesUsed then stats.languagesUsed[language.value] else 0;
        stats := stats.(languagesUsed := stats.languagesUsed[language.value := count + 1]);
      }
      assert stats == Recorded(loaded, today, wordCount, durationSecs, language);
      if old(Valid()) {
        LoadedConsistent(old(file));
        RecordedConsistent(loaded, today, wordCount, durationSecs, language);
      }
      r := written;
      if written.Pass? {
        file := Stored(stats);
      }
    }
  }

  // ---------------------------------------------------------------------
  // Properties

  /** A missing or unparseable file gives all-zero statistics. */
  lemma FallbackIsZero(file: StatsFile)
    requires !file.Stored?
    ensures LoadStats(file).totalWords == 0 && LoadStats(file).totalTranscriptions == 0
    ensures LoadStats(file).dailyStats == map[] && LoadStats(file).languagesUsed == map[]
  {
  }

  /** Recording adds the words, one transcription and the duration to the
      totals and to today's entry (created as zeros), leaves every other
      day alone, and counts the language only when there is one. */
  lemma RecordedEffect(s: UsageStats, today: string, wordCount: nat, durationSecs: real,
                       language: Option<string>, day: string, l: string)
    ensures var t := Recorded(s, today, wordCount, durationSecs, language);
            && t.totalWords == s.totalWords + wordCount
            && t.totalTranscriptions == s.totalTranscriptions + 1
            && t.totalDurationSecs == s.totalDurationSecs + durationSecs
            && today in t.dailyStats
            && t.dailyStats[today].words == DayOf(s, today).words + wordCount
            && t.dailyStats[today].transcriptions == DayOf(s, today).transcriptions + 1
            && t.dailyStats[today].durationSecs == DayOf(s, today).durationSecs + durationSecs
            && (day != today ==> (day in t.dailyStats <==> day in s.dailyStats) && DayOf(t, day) == DayOf(s, day))
            && (language.None? ==> t.languagesUsed == s.languagesUsed)
            && (language == Some(l) ==> LanguageCount(t, l) == LanguageCount(s, l) + 1)
            && (language != Some(l) ==> (l in t.languagesUsed <==> l in s.languagesUsed) &&
                                        LanguageCount(t, l) == LanguageCount(s, l))
  {
  }

  /** Removing one day takes its counter out of the sum. */
  lemma {:induction false} DailySumRemove(days: map<string, DailyStats>, c: Counter, day: string)
    requires day in days
    ensures DailySum(days, c) == Count(days[day], c) + DailySum(days - {day}, c)
    decreases |days|
  {
    var d :| d in days && DailySum(days, c) == Count(days[d], c) + DailySum(days - {d}, c);
    if d != day {
      var rest := days - {d};
      assert day in rest;
      DailySumRemove(rest, c, day);
      assert rest - {day} == days - {day} - {d};
      assert d in days - {day};
      DailySumRemove(days - {day}, c, d);
    }
  }

  /** Setting one day's entry changes the sum by the change of that day. */
  lemma DailySumUpdate(days: map<string, DailyStats>, c: Counter, day: string, v: DailyStats)
    ensures DailySum(days[day := v], c) + (if day in days then Count(days[day], c) else 0) ==
            DailySum(days, c) + Count(v, c)
  {
    var updated := days[day := v];
    DailySumRemove(updated, c, day);
    if day in days {
      DailySumRemove(days, c, day);
      assert updated - {day} == days - {day};
    } else {
      assert updated - {day} == days;
    }
  }

  /** Because the totals and today's entry rise together, recording keeps
      the totals equal to the sums over the days. */
  lemma RecordedConsistent(s: UsageStats, today: string, wordCount: nat, durationSecs: real,
                           language: Option<string>)
    requires Consistent(s)
    ensures Consistent(Recorded(s, today, wordCount, durationSecs, language))
  {
    var t := Recorded(s, today, wordCount, durationSecs, language);
    DailySumUpdate(s.dailyStats, WordsCounter, today, t.dailyStats[today]);
    DailySumUpdate(s.dailyStats, TranscriptionsCounter, today, t.dailyStats[today]);
  }

  /** What loading gives is consistent when the file was. */
  lemma LoadedConsistent(file: StatsFile)
    requires file.Stored? ==> Consistent(file.stats)
    ensures Consistent(LoadStats(file))
  {
    if !file.Stored? {
      assert DefaultStats.dailyStats == map[];
    }
  }
}
