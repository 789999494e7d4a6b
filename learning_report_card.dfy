/** The per-roadmap card of `src/components/organisms/learning-report-card.tsx`:
    how many steps are done, the percentage, and the two pie-chart slices. */
module LearningReportCard {
  import opened LearningTypes
  import LearningPage
  import Percent

  datatype ChartSlice = ChartSlice(name: string, value: int)

  /** Completed steps, all steps, and the rounded percentage (0 for no steps). */
  function CardFigures(roadmap: Roadmap): (r: (nat, nat, nat))
    ensures r.0 == LearningPage.CompletedCount(roadmap.steps)
    ensures r.0 <= r.1 && r.1 == |roadmap.steps|
  {
    var completedSteps := LearningPage.CompletedCount(roadmap.steps);
    var totalSteps := |roadmap.steps|;
    var progress := if totalSteps > 0 then Percent.RoundPercent(completedSteps, totalSteps) else 0;
    (completedSteps, totalSteps, progress)
  }

  /** The "done" and "not done" slices. */
  function ChartData(roadmap: Roadmap): seq<ChartSlice> {
    var f := CardFigures(roadmap);
    [ChartSlice("Selesai", f.0), ChartSlice("Belum Selesai", f.1 - f.0)]
  }

  /** The card agrees with the learning page: same percentage as
      `calculateProgress`, at most 100, 100 when every step is done. */
  lemma CardMatchesPage(roadmap: Roadmap)
    ensures CardFigures(roadmap).2 == LearningPage.CalculateProgress(roadmap.steps)
    ensures CardFigures(roadmap).2 <= 100
    ensures (forall i :: 0 <= i < |roadmap.steps| ==> roadmap.steps[i].completed) && |roadmap.steps| > 0 ==>
      CardFigures(roadmap).2 == 100
  {
    LearningPage.ProgressBounds(roadmap.steps);
  }

  /** Both slices are non-negative and together they are all the steps. */
  lemma ChartCoversSteps(roadmap: Roadmap)
    ensures |ChartData(roadmap)| == 2
    ensures ChartData(roadmap)[0].value >= 0 && ChartData(roadmap)[1].value >= 0
    ensures ChartData(roadmap)[0].value + ChartData(roadmap)[1].value == |roadmap.steps|
  {
  }
}
