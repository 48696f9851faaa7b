/*
 * The tag colours of a task's priority and complexity
 * (src/utils/TaskUtils.ts, `getPriorityColor` and `getComplexityColor`).
 */
module TaskUtils {
  import opened TaskTypes

  function PriorityColors(): set<string> {
    {"red", "orange", "blue", "default"}
  }

  function ComplexityColors(): set<string> {
    {"volcano", "gold", "green", "default"}
  }

  /**
   * `getPriorityColor`: urgent is red, high orange, medium blue; low and
   * an absent priority share the neutral "default".
   */
  function PriorityColor(priority: Option<Priority>): (r: string)
    ensures r in PriorityColors()
    ensures r == "default" <==> priority == None || priority == Some(Priority.Low)
  {
    match priority
    case Some(Urgent) => "red"
    case Some(High) => "orange"
    case Some(Medium) => "blue"
    case Some(Low) => "default"
    case None => "default"
  }

  /**
   * `getComplexityColor`: high is volcano, medium gold, low green, and an
   * absent complexity "default".
   */
  function ComplexityColor(complexity: Option<Complexity>): (r: string)
    ensures r in ComplexityColors()
    ensures r == "default" <==> complexity == None
  {
    match complexity
    case Some(High) => "volcano"
    case Some(Medium) => "gold"
    case Some(Low) => "green"
    case None => "default"
  }

  /** Apart from low versus absent, the priority colour tells priorities apart. */
  lemma PriorityColorCollisions(a: Option<Priority>, b: Option<Priority>)
    ensures PriorityColor(a) == PriorityColor(b) <==>
      a == b || ((a == None || a == Some(Priority.Low)) && (b == None || b == Some(Priority.Low)))
  {
  }

  /** The complexity colour tells every complexity, and its absence, apart. */
  lemma ComplexityColorInjective(a: Option<Complexity>, b: Option<Complexity>)
    ensures ComplexityColor(a) == ComplexityColor(b) <==> a == b
  {
  }
}
