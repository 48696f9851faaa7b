/*
 * The Russian plural rule for the active-task label
 * (src/utils/TextUtils.ts).
 *
 * The source computes `count % 10` and `count % 100` with JavaScript's
 * truncating remainder, so a negative count is handled as the source
 * handles it.
 */
module TextUtils {
  import opened JsText

  /** "one active task": counts ending in 1 but not in 11. */
  const OneTask := "активная задача"
  /** "active tasks" after counts ending in 2, 3 or 4 but not in 12, 13 or 14. */
  const FewTasks := "активные задачи"
  /** "active tasks" after every other count. */
  const ManyTasks := "активных задач"

  function TaskLabels(): set<string> {
    {OneTask, FewTasks, ManyTasks}
  }

  /** `pluralizeTasks(count)`. */
  function PluralizeTasks(count: int): (r: string)
    ensures r in TaskLabels()
  {
    if JsRem(count, 10) == 1 && JsRem(count, 100) != 11 then OneTask
    else if JsRem(count, 10) in {2, 3, 4} && JsRem(count, 100) !in {12, 13, 14} then FewTasks
    else ManyTasks
  }

  /**
   * The rule as a grammar states it, in terms of the last two decimal
   * digits: a tens digit of 1 always takes the genitive plural; otherwise
   * a last digit of 1 takes the singular, 2 to 4 the paucal form, and
   * anything else the genitive plural.
   */
  function LabelByDigits(tens: int, units: int): string {
    if tens == 1 then ManyTasks
    else if units == 1 then OneTask
    else if 2 <= units <= 4 then FewTasks
    else ManyTasks
  }

  /** For every natural count the source's remainder tests agree with the digit rule. */
  lemma PluralizeByDigits(n: nat)
    ensures PluralizeTasks(n) == LabelByDigits((n / 10) % 10, n % 10)
  {
    var units, tens := n % 10, (n / 10) % 10;
    assert n % 100 == 10 * tens + units by {
      assert n == 100 * (n / 100) + n % 100;
      assert n == 10 * (n / 10) + units;
      assert n / 10 == 10 * (n / 100) + tens;
    }
    assert OneTask != FewTasks && FewTasks != ManyTasks && OneTask != ManyTasks;
  }

  /** The label depends only on the last two digits: it repeats every hundred. */
  lemma PluralizePeriodic(n: nat)
    ensures PluralizeTasks(n + 100) == PluralizeTasks(n)
  {
    assert (n + 100) % 10 == n % 10;
    assert (n + 100) % 100 == n % 100;
  }

  /** A negative count never meets the remainder tests: it always takes the genitive plural. */
  lemma PluralizeNegative(n: int)
    requires n < 0
    ensures PluralizeTasks(n) == ManyTasks
  {
  }

  /** The labels of the counts the interface shows most often. */
  lemma PluralizeSamples()
    ensures PluralizeTasks(0) == ManyTasks
    ensures PluralizeTasks(1) == OneTask && PluralizeTasks(21) == OneTask && PluralizeTasks(101) == OneTask
    ensures PluralizeTasks(2) == FewTasks && PluralizeTasks(4) == FewTasks && PluralizeTasks(22) == FewTasks
    ensures PluralizeTasks(5) == ManyTasks && PluralizeTasks(11) == ManyTasks && PluralizeTasks(14) == ManyTasks
    ensures PluralizeTasks(111) == ManyTasks && PluralizeTasks(112) == ManyTasks && PluralizeTasks(114) == ManyTasks
  {
  }
}
