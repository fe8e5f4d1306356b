/**
 * Time as the rest of the model sees it, and the Russian weekday names.
 * The wall clock and time-zone conversions are not modelled: "now" is
 * always an input, an instant counted in seconds.
 */
module Timezone {
  import opened Wrappers

  /** A point in time, in seconds. */
  type Instant = int

  const SECONDS_PER_DAY: int := 86400

  /**
   * A timestamp as the database stores it: text that `datetime.fromisoformat`
   * reads as an instant, or text it rejects.
   */
  datatype Stamp = Iso(at: Instant) | Unparseable(text: string)

  /** The weekday names, Monday first. */
  const WEEKDAYS: seq<string> := [
    "Понедельник", "Вторник", "Среда", "Четверг", "Пятница", "Суббота", "Воскресенье"
  ]

  /**
   * `get_weekday_name_ru`: Python list indexing, so -7..-1 count from the
   * end; any other index outside 0..6 is an IndexError (None).
   */
  function WeekdayNameRu(dayOfWeek: int): (r: Option<string>)
    ensures r.Some? <==> -7 <= dayOfWeek < 7
    ensures 0 <= dayOfWeek < 7 ==> r == Some(WEEKDAYS[dayOfWeek])
    ensures -7 <= dayOfWeek < 0 ==> r == Some(WEEKDAYS[dayOfWeek + 7])
  {
    if 0 <= dayOfWeek < 7 then Some(WEEKDAYS[dayOfWeek])
    else if -7 <= dayOfWeek < 0 then Some(WEEKDAYS[7 + dayOfWeek])
    else None
  }

  /** Monday is 0 and Sunday is 6, and no two days share a name. */
  lemma WeekdayNamesDistinct(i: int, j: int)
    requires 0 <= i < 7 && 0 <= j < 7 && i != j
    ensures WeekdayNameRu(i).value != WeekdayNameRu(j).value
  {
    assert WEEKDAYS[0][0] == 'П' && WEEKDAYS[4][0] == 'П';
    assert WEEKDAYS[0][1] == 'о' && WEEKDAYS[4][1] == 'я';
    assert WEEKDAYS[1][0] == 'В' && WEEKDAYS[6][0] == 'В';
    assert WEEKDAYS[1][1] == 'т' && WEEKDAYS[6][1] == 'о';
    assert WEEKDAYS[2][0] == 'С' && WEEKDAYS[5][0] == 'С';
    assert WEEKDAYS[2][1] == 'р' && WEEKDAYS[5][1] == 'у';
    assert WEEKDAYS[3][0] == 'Ч';
  }

  /** A negative index names the same day as the index seven above it. */
  lemma WeekdayNegativeWraps(d: int)
    requires -7 <= d < 0
    ensures WeekdayNameRu(d) == WeekdayNameRu(d + 7)
  {
  }
}
