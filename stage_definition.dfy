/** The Stage Definitions table: one row per stage, its steps joined by ", ". */
module StageDefinition {

  import opened Strings
  import opened Records
  import opened Tables

  const StepSeparator := ", "

  /** The text of a row's value cell: `item.value.join(", ")`. */
  function StepsText(steps: seq<string>): (text: string)
    ensures |steps| == 0 ==> text == ""
    ensures |steps| > 0 ==> |text| == TotalLength(steps) + 2 * (|steps| - 1)
  {
    Join(steps, StepSeparator)
  }

  /** The rows as displayed: the stage name, and its steps joined. */
  function Rows(stageDefinition: Record<seq<string>>): (rows: seq<(string, string)>)
    ensures |rows| == |stageDefinition|
    ensures forall i :: 0 <= i < |rows| ==>
      rows[i] == (stageDefinition[i].0, StepsText(stageDefinition[i].1))
  {
    var items := Items(stageDefinition);
    seq(|items|, i requires 0 <= i < |items| => (items[i].key, StepsText(items[i].value)))
  }

  /** No steps show as an empty cell, one step as itself. */
  lemma StepsTextOfFewSteps(step: string)
    ensures StepsText([]) == ""
    ensures StepsText([step]) == step
  {
  }

  /** Adding a step at the end adds ", " and the step to the text. */
  lemma {:induction false} StepsTextAppend(steps: seq<string>, step: string)
    requires |steps| > 0
    ensures StepsText(steps + [step]) == StepsText(steps) + StepSeparator + step
    decreases |steps|
  {
    if |steps| > 1 {
      StepsTextAppend(steps[1..], step);
      assert (steps + [step])[1..] == steps[1..] + [step];
    } else {
      assert steps == [steps[0]];
      assert (steps + [step])[1..] == [step];
      assert Join([step], StepSeparator) == step;
    }
  }

  /** Three steps, as the stage table shows them. */
  lemma ThreeSteps()
    ensures StepsText(["build", "test", "package"]) == "build, test, package"
  {
  }
}
