/** The records of `src/lib/types.ts` the habit pages share. */
module HabitTypes {
  import opened Wrappers

  /** `HabitCategory`: the four times of day, plus `'all'`. */
  datatype Category = Morning | AfterDhuhr | AfternoonEvening | SleepPrep | All

  datatype Habit = Habit(id: string, name: string, category: Category)

  /** One day's record for a habit; `date` is a `YYYY-MM-DD` string and the
      two optional texts are absent rather than `undefined`. */
  datatype HabitLog = HabitLog(
    id: string,
    habitId: string,
    date: string,
    completed: bool,
    journal: Option<string>,
    reasonForMiss: Option<string>)
}
