/** The learning page `src/app/learning/page.tsx`: parsing the typed steps,
    the create/edit form guard, and the four updates of the roadmap list
    (create, update, delete, toggle a step), plus the progress percentage. */
module LearningPage {
  import opened Wrappers
  import opened LearningTypes
  import RoadmapFlow
  import Text
  import SeqUtil
  import Percent

  /** `lines.map(s => s.trim())`. */
  function TrimLines(lines: seq<string>): (r: seq<string>)
    ensures |r| == |lines|
    ensures forall i :: 0 <= i < |r| ==> r[i] == Text.Trim(lines[i])
  {
    if lines == [] then [] else [Text.Trim(lines[0])] + TrimLines(lines[1..])
  }

  predicate NonEmpty(s: string) {
    |s| > 0
  }

  /** A step title as parsing produces it: non-empty, no whitespace at the
      ends, on one line. */
  predicate IsStepTitle(s: string) {
    s != [] && Text.IsTrimmed(s) && '\n' !in s
  }

  /** The step text split into lines, each trimmed, blank ones dropped. */
  function ParseSteps(text: string): seq<string> {
    SeqUtil.Filter(TrimLines(Text.Split(text, '\n')), NonEmpty)
  }

  /** Trimming cannot introduce a line break. */
  lemma TrimOneLine(s: string)
    requires '\n' !in s
    ensures '\n' !in Text.Trim(s)
  {
    Text.TrimInfix(s);
    var t := Text.Trim(s);
    var a := Text.LeadingSpace(s);
    assert forall j :: 0 <= j < |t| ==> t[j] == s[a + j];
  }

  /** Every parsed title is a proper step title. */
  lemma {:induction false} ParseStepsTitles(text: string)
    ensures forall i :: 0 <= i < |ParseSteps(text)| ==> IsStepTitle(ParseSteps(text)[i])
  {
    var lines := Text.Split(text, '\n');
    var trimmed := TrimLines(lines);
    var titles := ParseSteps(text);
    SeqUtil.FilterMembers(trimmed, NonEmpty);
    forall i | 0 <= i < |titles|
      ensures IsStepTitle(titles[i])
    {
      var t := titles[i];
      assert t in trimmed && NonEmpty(t);
      var k :| 0 <= k < |trimmed| && trimmed[k] == t;
      var line := lines[k];
      assert t == Text.Trim(line);
      assert '\n' !in line;
      TrimOneLine(line);
    }
  }

  /** The edit dialog shows the titles joined with newlines; submitting that
      text unchanged gives back the same titles in the same order. */
  lemma {:induction false} StepsRoundTrip(titles: seq<string>)
    requires forall i :: 0 <= i < |titles| ==> IsStepTitle(titles[i])
    ensures ParseSteps(Text.Join(titles, "\n")) == titles
  {
    if titles == [] {
      assert Text.Join(titles, "\n") == "";
      assert Text.Split("", '\n') == [""];
      assert Text.Trim("") == "";
      assert TrimLines([""]) == [""];
      assert SeqUtil.Filter([""], NonEmpty) == SeqUtil.Filter([], NonEmpty) + [];
    } else {
      Text.SplitJoin(titles, '\n');
      assert Text.Split(Text.Join(titles, "\n"), '\n') == titles;
      forall i | 0 <= i < |titles|
        ensures Text.Trim(titles[i]) == titles[i]
      {
        Text.TrimOfTrimmed(titles[i]);
      }
      assert TrimLines(titles) == titles;
      SeqUtil.FilterAll(titles, NonEmpty);
    }
  }

  /** The create and edit forms submit the trimmed topic and the parsed
      titles, and only when the topic is not blank and some title remains. */
  function SubmitRoadmapForm(topic: string, stepsText: string): (r: Option<(string, seq<string>)>)
    ensures r.Some? <==> Text.Trim(topic) != "" && |ParseSteps(stepsText)| > 0
    ensures r.Some? ==> r.value.0 == Text.Trim(topic) && Text.IsTrimmed(r.value.0)
    ensures r.Some? ==> r.value.1 == ParseSteps(stepsText) && |r.value.1| >= 1
  {
    var steps := ParseSteps(stepsText);
    if Text.Trim(topic) != "" && |steps| > 0 then Some((Text.Trim(topic), steps)) else None
  }

  /** `roadmap-${now}`. */
  function RoadmapId(now: nat): string {
    "roadmap-" + Text.NatToString(now)
  }

  /** `step-${now}-${index}`. */
  function StepId(now: nat, index: nat): string {
    "step-" + Text.NatToString(now) + "-" + Text.NatToString(index)
  }

  /** The outline's steps as fresh, unfinished steps. */
  function NewSteps(outline: seq<RoadmapFlow.StepOutline>, now: nat): (r: seq<Step>)
    ensures |r| == |outline|
    ensures forall i :: 0 <= i < |r| ==>
      r[i].title == outline[i].title && r[i].description == outline[i].description && !r[i].completed
  {
    seq(|outline|, i requires 0 <= i < |outline| =>
      Step(StepId(now, i), outline[i].title, outline[i].description, false))
  }

  /** `handleCreateRoadmap`: the outline becomes a new roadmap put in front. */
  function CreateRoadmap(roadmaps: seq<Roadmap>, topic: string, titles: seq<string>, now: nat): seq<Roadmap> {
    var out := RoadmapFlow.GenerateRoadmap(topic, titles);
    [Roadmap(RoadmapId(now), out.topic, NewSteps(out.steps, now))] + roadmaps
  }

  /** A created roadmap comes first, with the topic and one unfinished step
      per title in order; the existing roadmaps follow unchanged. */
  lemma CreateRoadmapShape(roadmaps: seq<Roadmap>, topic: string, titles: seq<string>, now: nat)
    ensures var r := CreateRoadmap(roadmaps, topic, titles, now);
      |r| == |roadmaps| + 1 && r[1..] == roadmaps &&
      r[0].topic == topic && |r[0].steps| == |titles| &&
      forall i :: 0 <= i < |titles| ==>
        r[0].steps[i].title == titles[i] && !r[0].steps[i].completed && r[0].steps[i].description == ""
  {
  }

  /** `steps.find(s => s.title === title)`. */
  function FindStepByTitle(steps: seq<Step>, title: string): (r: Option<Step>)
    ensures r.Some? ==> r.value in steps && r.value.title == title
    ensures r.None? <==> forall s :: s in steps ==> s.title != title
  {
    if steps == [] then None
    else if steps[0].title == title then Some(steps[0])
    else FindStepByTitle(steps[1..], title)
  }

  /** The step found is the first with the title. */
  lemma {:induction false} FindStepByTitleFirst(steps: seq<Step>, title: string)
    ensures FindStepByTitle(steps, title).Some? ==>
      exists j :: 0 <= j < |steps| && steps[j] == FindStepByTitle(steps, title).value &&
        forall i :: 0 <= i < j ==> steps[i].title != title
  {
    if steps != [] && steps[0].title != title {
      FindStepByTitleFirst(steps[1..], title);
      if FindStepByTitle(steps, title).Some? {
        var j :| 0 <= j < |steps[1..]| && steps[1..][j] == FindStepByTitle(steps, title).value &&
          forall i :: 0 <= i < j ==> steps[1..][i].title != title;
        assert steps[j + 1] == FindStepByTitle(steps, title).value;
      }
    } else if steps != [] {
      assert steps[0] == FindStepByTitle(steps, title).value;
    }
  }

  /** The steps of an edited roadmap: each title keeps the first existing
      step with that title (its id and completion), otherwise it is new. */
  function UpdatedSteps(existing: seq<Step>, titles: seq<string>, now: nat): (r: seq<Step>)
    ensures |r| == |titles|
    ensures forall i :: 0 <= i < |r| ==> r[i].title == titles[i]
  {
    seq(|titles|, i requires 0 <= i < |titles| =>
      match FindStepByTitle(existing, titles[i])
      case Some(s) => s
      case None => Step(StepId(now, i), titles[i], "", false))
  }

  /** `handleUpdateRoadmap`. */
  function UpdateRoadmap(roadmaps: seq<Roadmap>, id: string, topic: string, titles: seq<string>, now: nat): (r: seq<Roadmap>)
    ensures |r| == |roadmaps|
  {
    seq(|roadmaps|, k requires 0 <= k < |roadmaps| =>
      if roadmaps[k].id == id
      then roadmaps[k].(topic := topic, steps := UpdatedSteps(roadmaps[k].steps, titles, now))
      else roadmaps[k])
  }

  /** Updating touches only the roadmap with the id: it gets the new topic and
      one step per title in order, where a title that already had a step
      keeps the first step with that title, completion included, and a new
      title starts unfinished. */
  lemma UpdateRoadmapShape(roadmaps: seq<Roadmap>, id: string, topic: string, titles: seq<string>, now: nat, k: nat)
    requires k < |roadmaps|
    ensures var r := UpdateRoadmap(roadmaps, id, topic, titles, now)[k];
      (roadmaps[k].id != id ==> r == roadmaps[k]) &&
      (roadmaps[k].id == id ==>
        r.id == id && r.topic == topic && |r.steps| == |titles| &&
        forall i :: 0 <= i < |titles| ==>
          r.steps[i].title == titles[i] &&
          ((exists s :: s in roadmaps[k].steps && s.title == titles[i]) ==>
            exists j :: 0 <= j < |roadmaps[k].steps| && r.steps[i] == roadmaps[k].steps[j] &&
              forall j' :: 0 <= j' < j ==> roadmaps[k].steps[j'].title != titles[i]) &&
          ((forall s :: s in roadmaps[k].steps ==> s.title != titles[i]) ==> !r.steps[i].completed))
  {
    forall i | 0 <= i < |titles|
      ensures FindStepByTitle(roadmaps[k].steps, titles[i]).Some? ==>
        exists j :: 0 <= j < |roadmaps[k].steps| && roadmaps[k].steps[j] == FindStepByTitle(roadmaps[k].steps, titles[i]).value &&
          forall j' :: 0 <= j' < j ==> roadmaps[k].steps[j'].title != titles[i]
    {
      FindStepByTitleFirst(roadmaps[k].steps, titles[i]);
    }
  }

  /** Re-submitting a roadmap's own titles keeps every step as it was. */
  lemma UpdateWithSameTitles(roadmaps: seq<Roadmap>, id: string, now: nat, k: nat)
    requires k < |roadmaps| && roadmaps[k].id == id
    requires forall i, j :: 0 <= i < j < |roadmaps[k].steps| ==> roadmaps[k].steps[i].title != roadmaps[k].steps[j].title
    ensures var titles := seq(|roadmaps[k].steps|, i requires 0 <= i < |roadmaps[k].steps| => roadmaps[k].steps[i].title);
      UpdateRoadmap(roadmaps, id, roadmaps[k].topic, titles, now)[k] == roadmaps[k]
  {
    var steps := roadmaps[k].steps;
    var titles := seq(|steps|, i requires 0 <= i < |steps| => steps[i].title);
    forall i | 0 <= i < |steps|
      ensures FindStepByTitle(steps, titles[i]) == Some(steps[i])
    {
      FindDistinctTitle(steps, i);
    }
    assert UpdatedSteps(steps, titles, now) == steps;
  }

  lemma {:induction false} FindDistinctTitle(steps: seq<Step>, i: nat)
    requires i < |steps|
    requires forall a, b :: 0 <= a < b < |steps| ==> steps[a].title != steps[b].title
    ensures FindStepByTitle(steps, steps[i].title) == Some(steps[i])
  {
    if i > 0 {
      FindDistinctTitle(steps[1..], i - 1);
    }
  }

  /** `handleDeleteRoadmap`. */
  function DeleteRoadmap(roadmaps: seq<Roadmap>, id: string): seq<Roadmap> {
    SeqUtil.Filter(roadmaps, (r: Roadmap) => r.id != id)
  }

  /** Deleting removes exactly the roadmaps with the id; without one, nothing changes. */
  lemma DeleteRoadmapShape(roadmaps: seq<Roadmap>, id: string)
    ensures forall r :: r in DeleteRoadmap(roadmaps, id) <==> r in roadmaps && r.id != id
    ensures (forall i :: 0 <= i < |roadmaps| ==> roadmaps[i].id != id) ==> DeleteRoadmap(roadmaps, id) == roadmaps
  {
    SeqUtil.FilterMembers(roadmaps, (r: Roadmap) => r.id != id);
    if forall i :: 0 <= i < |roadmaps| ==> roadmaps[i].id != id {
      SeqUtil.FilterAll(roadmaps, (r: Roadmap) => r.id != id);
    }
  }

  /** Flips the steps with the id. */
  function ToggleInSteps(steps: seq<Step>, stepId: string): (r: seq<Step>)
    ensures |r| == |steps|
  {
    seq(|steps|, i requires 0 <= i < |steps| =>
      if steps[i].id == stepId then steps[i].(completed := !steps[i].completed) else steps[i])
  }

  /** `handleToggleStep`. */
  function ToggleStep(roadmaps: seq<Roadmap>, roadmapId: string, stepId: string): (r: seq<Roadmap>)
    ensures |r| == |roadmaps|
  {
    seq(|roadmaps|, k requires 0 <= k < |roadmaps| =>
      if roadmaps[k].id == roadmapId
      then roadmaps[k].(steps := ToggleInSteps(roadmaps[k].steps, stepId))
      else roadmaps[k])
  }

  /** Toggling flips the completion of exactly the matching step of the
      matching roadmap; a step differs from its old self at most in that
      flag, and the other roadmaps stay as they were. */
  lemma ToggleStepShape(roadmaps: seq<Roadmap>, roadmapId: string, stepId: string, k: nat, i: nat)
    requires k < |roadmaps| && i < |roadmaps[k].steps|
    ensures var r := ToggleStep(roadmaps, roadmapId, stepId)[k];
      r.id == roadmaps[k].id && r.topic == roadmaps[k].topic && |r.steps| == |roadmaps[k].steps| &&
      r.steps[i].id == roadmaps[k].steps[i].id && r.steps[i].title == roadmaps[k].steps[i].title &&
      r.steps[i].description == roadmaps[k].steps[i].description &&
      r.steps[i] == roadmaps[k].steps[i].(completed := r.steps[i].completed) &&
      (forall k' :: 0 <= k' < |roadmaps| && roadmaps[k'].id != roadmapId ==>
        ToggleStep(roadmaps, roadmapId, stepId)[k'] == roadmaps[k']) &&
      (r.steps[i].completed != roadmaps[k].steps[i].completed <==>
        roadmaps[k].id == roadmapId && roadmaps[k].steps[i].id == stepId)
  {
  }

  /** Toggling the same step twice restores the list. */
  lemma ToggleTwice(roadmaps: seq<Roadmap>, roadmapId: string, stepId: string)
    ensures ToggleStep(ToggleStep(roadmaps, roadmapId, stepId), roadmapId, stepId) == roadmaps
  {
    var once := ToggleStep(roadmaps, roadmapId, stepId);
    var twice := ToggleStep(once, roadmapId, stepId);
    forall k | 0 <= k < |roadmaps|
      ensures twice[k] == roadmaps[k]
    {
      if roadmaps[k].id == roadmapId {
        var s := roadmaps[k].steps;
        assert ToggleInSteps(ToggleInSteps(s, stepId), stepId) == s;
      }
    }
  }

  /** Number of completed steps. */
  function CompletedCount(steps: seq<Step>): (n: nat)
    ensures n <= |steps|
  {
    |SeqUtil.Filter(steps, (s: Step) => s.completed)|
  }

  /** `calculateProgress`. */
  function CalculateProgress(steps: seq<Step>): nat {
    if |steps| == 0 then 0 else Percent.RoundPercent(CompletedCount(steps), |steps|)
  }

  /** Progress is a percentage; it is 100 when every step is done and 0 when
      none is (including when there are no steps). */
  lemma ProgressBounds(steps: seq<Step>)
    ensures CalculateProgress(steps) <= 100
    ensures (forall i :: 0 <= i < |steps| ==> steps[i].completed) && |steps| > 0 ==> CalculateProgress(steps) == 100
    ensures (forall i :: 0 <= i < |steps| ==> !steps[i].completed) ==> CalculateProgress(steps) == 0
  {
    var p := (s: Step) => s.completed;
    if |steps| > 0 {
      Percent.PercentBounds(CompletedCount(steps), |steps|);
      if forall i :: 0 <= i < |steps| ==> steps[i].completed {
        SeqUtil.FilterAll(steps, p);
      }
      if forall i :: 0 <= i < |steps| ==> !steps[i].completed {
        SeqUtil.FilterNone(steps, p);
      }
    }
  }

  /** The page's roadmap list, replaced by each handler, and the roadmap
      open in the edit dialog. */
  class LearningBoard {
    var roadmaps: seq<Roadmap>
    var editing: Option<Roadmap>

    constructor(roadmaps: seq<Roadmap>)
      ensures this.roadmaps == roadmaps && editing == None
    {
      this.roadmaps := roadmaps;
      editing := None;
    }

    method Create(topic: string, titles: seq<string>, now: nat)
      modifies this
      ensures roadmaps == CreateRoadmap(old(roadmaps), topic, titles, now) && editing == old(editing)
    {
      roadmaps := CreateRoadmap(roadmaps, topic, titles, now);
    }

    method StartEdit(r: Roadmap)
      modifies this
      ensures editing == Some(r) && roadmaps == old(roadmaps)
    {
      editing := Some(r);
    }

    method CloseEdit()
      modifies this
      ensures editing == None && roadmaps == old(roadmaps)
    {
      editing := None;
    }

    method Update(id: string, topic: string, titles: seq<string>, now: nat)
      modifies this
      ensures roadmaps == UpdateRoadmap(old(roadmaps), id, topic, titles, now) && editing == None
    {
      roadmaps := UpdateRoadmap(roadmaps, id, topic, titles, now);
      editing := None;
    }

    method Delete(id: string)
      modifies this
      ensures roadmaps == DeleteRoadmap(old(roadmaps), id) && editing == None
    {
      roadmaps := DeleteRoadmap(roadmaps, id);
      editing := None;
    }

    method Toggle(roadmapId: string, stepId: string)
      modifies this
      ensures roadmaps == ToggleStep(old(roadmaps), roadmapId, stepId) && editing == old(editing)
    {
      roadmaps := ToggleStep(roadmaps, roadmapId, stepId);
    }

    /** The create dialog's submit: the form guard, then the create handler. */
    method SubmitNew(topic: string, stepsText: string, now: nat)
      modifies this
      ensures SubmitRoadmapForm(topic, stepsText).None? ==> roadmaps == old(roadmaps)
      ensures SubmitRoadmapForm(topic, stepsText).Some? ==>
        roadmaps == CreateRoadmap(old(roadmaps), Text.Trim(topic), ParseSteps(stepsText), now)
      ensures editing == old(editing)
    {
      var submitted := SubmitRoadmapForm(topic, stepsText);
      if submitted.Some? {
        Create(submitted.value.0, submitted.value.1, now);
      }
    }
  }
}
