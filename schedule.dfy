/** What both parsers produce and the store keeps: a training program maps a
    full weekday name to the exercises of that day, each with a set count. */
module Schedule {
  import opened Wrappers
  import opened Dicts

  datatype Exercise = Exercise(name: string, sets: int)

  /** A parsed program: weekday name to that day's exercises, in insertion order. */
  type Program = Dict<string, seq<Exercise>>

  /** The seven canonical day names, Monday first (`datetime.weekday()` order). */
  const Weekdays: seq<string> :=
    ["Понедельник", "Вторник", "Среда", "Четверг", "Пятница", "Суббота", "Воскресенье"]

  /** Short and full upper-case day words, to the canonical name. */
  const DayMapping: map<string, string> := map[
    "ПН" := "Понедельник",
    "ВТ" := "Вторник",
    "СР" := "Среда",
    "ЧТ" := "Четверг",
    "ПТ" := "Пятница",
    "СБ" := "Суббота",
    "ВС" := "Воскресенье",
    "ПОНЕДЕЛЬНИК" := "Понедельник",
    "ВТОРНИК" := "Вторник",
    "СРЕДА" := "Среда",
    "ЧЕТВЕРГ" := "Четверг",
    "ПЯТНИЦА" := "Пятница",
    "СУББОТА" := "Суббота",
    "ВОСКРЕСЕНЬЕ" := "Воскресенье"
  ]

  /** `DAY_MAPPING.get(word)`. */
  function LookupDay(word: string): (r: Option<string>)
    ensures r.Some? <==> word in DayMapping
    ensures r.Some? ==> r.value in Weekdays && |word| >= 2
  {
    if word in DayMapping then Some(DayMapping[word]) else None
  }

  /** "ПН" names Monday. */
  lemma {:induction false} LookupMonday()
    ensures LookupDay("ПН") == Some("Понедельник")
  {
  }

  /** `get_current_day()`, with the clock's weekday (0 = Monday) passed in. */
  function CurrentDay(weekday: nat): (d: string)
    requires weekday < 7
    ensures d in Weekdays
  {
    Weekdays[weekday]
  }

  /** Every key of the program is a canonical day name. */
  predicate CanonicalKeys(p: Program) {
    forall i | 0 <= i < |p| :: p[i].0 in Weekdays
  }

  /** Assigning a canonical day keeps every key canonical. */
  lemma {:induction false} PutCanonical(p: Program, d: string, v: seq<Exercise>)
    requires CanonicalKeys(p) && d in Weekdays
    ensures CanonicalKeys(Put(p, d, v))
  {
    PutKeys(p, d, v);
    assert forall i | 0 <= i < |p| :: Keys(p)[i] == p[i].0;
  }
}
