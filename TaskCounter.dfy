/*
 * The active-task counter (src/components/Pages/taskCounter.tsx): its own
 * copy of the plural rule and the text it renders.
 */
module TaskCounter {
  import opened JsText
  import opened TextUtils

  /** The component's inner `getTaskLabel`, written independently of `pluralizeTasks`. */
  function GetTaskLabel(count: int): (r: string)
    ensures r in TaskLabels()
  {
    if JsRem(count, 10) == 1 && JsRem(count, 100) != 11 then "активная задача"
    else if JsRem(count, 10) in {2, 3, 4} && JsRem(count, 100) !in {12, 13, 14} then "активные задачи"
    else "активных задач"
  }

  /** The two copies of the rule agree on every count. */
  lemma GetTaskLabelAgrees(count: int)
    ensures GetTaskLabel(count) == PluralizeTasks(count)
  {
  }

  /** The rendered text `{count} {getTaskLabel(count)}`; the page only ever passes a count of tasks. */
  function CounterText(count: nat): (text: string)
    ensures |text| > |DecimalString(count)| && text[|DecimalString(count)|] == ' '
    ensures text[|DecimalString(count)| + 1..] == PluralizeTasks(count)
  {
    GetTaskLabelAgrees(count);
    DecimalString(count) + " " + GetTaskLabel(count)
  }

  /**
   * The text is the count's digits, one space, then the label: cutting it
   * at its first space gives back the count and `pluralizeTasks(count)`.
   */
  lemma CounterTextParts(count: nat)
    ensures var text, k := CounterText(count), |DecimalString(count)|;
      && k < |text| && text[k] == ' '
      && (forall i :: 0 <= i < k ==> text[i] != ' ')
      && AllDigits(text[..k]) && DecimalValue(text[..k]) == count
      && text[k + 1..] == PluralizeTasks(count)
  {
    var digits := DecimalString(count);
    var text := CounterText(count);
    assert text[..|digits|] == digits;
    assert text[|digits| + 1..] == GetTaskLabel(count);
    forall i | 0 <= i < |digits| ensures text[i] != ' ' {
      assert text[i] == digits[i];
    }
    DecimalRoundTrip(count);
  }
}
