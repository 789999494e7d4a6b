/** `generateLearningRoadmap` of `src/ai/flows/learning-roadmap-flow.ts`:
    with generation switched off, it turns the typed topic and step titles
    into the roadmap outline unchanged, each step with an empty description. */
module RoadmapFlow {

  datatype StepOutline = StepOutline(title: string, description: string)

  datatype RoadmapOutline = RoadmapOutline(topic: string, steps: seq<StepOutline>)

  /** The outline keeps the topic and the titles, in order, one step per
      title, with no description. */
  function GenerateRoadmap(topic: string, titles: seq<string>): (out: RoadmapOutline)
    ensures out.topic == topic
    ensures |out.steps| == |titles|
    ensures forall i :: 0 <= i < |titles| ==> out.steps[i].title == titles[i]
    ensures forall i :: 0 <= i < |titles| ==> out.steps[i].description == ""
  {
    RoadmapOutline(topic, seq(|titles|, i requires 0 <= i < |titles| => StepOutline(titles[i], "")))
  }
}
