/** `uiSelectMeasurement`: the choices offered when picking a measurement,
    and the answer the prompt resolves with. */
module Choices {
  import opened Options
  import opened ListView

  /** One list choice: the text shown and the value answered. */
  datatype MeasurementChoice = MeasurementChoice(name: string, value: string)

  /** The choices, one per entry in list order, shown as
      "project | activity" and answering the entry's id. An empty list
      rejects the prompt (`None`). */
  function MeasurementChoices(list: seq<Element>): (choices: Option<seq<MeasurementChoice>>)
    ensures choices.None? <==> list == []
    ensures choices.Some? ==> |choices.value| == |list|
    ensures choices.Some? ==> forall i :: 0 <= i < |list| ==>
              choices.value[i] == MeasurementChoice(list[i].project.name + " | " + list[i].activity.name, list[i].id)
  {
    if list == [] then None
    else Some(seq(|list|, i requires 0 <= i < |list| =>
                MeasurementChoice(list[i].project.name + " | " + list[i].activity.name, list[i].id)))
  }

  /** The prompt resolves with the value of the choice picked. */
  function SelectMeasurement(list: seq<Element>, picked: nat): (id: Option<string>)
    ensures id.Some? <==> picked < |list|
    ensures id.Some? ==> id.value == list[picked].id
  {
    var choices := MeasurementChoices(list);
    if choices.None? || picked >= |choices.value| then None
    else Some(choices.value[picked].value)
  }
}
