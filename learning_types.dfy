/** The learning records the learning pages share: a roadmap is a topic
    with an ordered list of steps, each of which can be ticked off. */
module LearningTypes {
  datatype Step = Step(id: string, title: string, description: string, completed: bool)

  datatype Roadmap = Roadmap(id: string, topic: string, steps: seq<Step>)
}
