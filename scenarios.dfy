/**
 * Worked play-throughs of the judgement rules on small charts, and a client
 * of the `Game` class that plays the first note of the demo chart using only
 * the contracts of its methods.
 */
module Scenarios {
  import opened Wrappers
  import opened Charts
  import opened Judging
  import opened Engine

  function OneNote(): Play
  {
    Play([Note(0, 1000, false, false)], 0, None, 0)
  }

  /** Pressed on time, 90 ms late and 130 ms late: Perfect, Good, and a
      discarded press that leaves the note unresolved. */
  lemma OneNotePresses()
    ensures Judged(OneNote(), 0, 1000) == Play([Note(0, 1000, true, false)], 1, Some(Perfect), 10)
    ensures Judged(OneNote(), 0, 1090) == Play([Note(0, 1000, true, false)], 1, Some(Good), 5)
    ensures Judged(OneNote(), 0, 1130) == OneNote()
  {
  }

  /** Never pressed: the sweep at 1121 ms marks the note missed; at 1120 ms it
      is still inside its window and stays unresolved. */
  lemma OneNoteSwept()
    ensures Swept(OneNote(), 1121) == Play([Note(0, 1000, false, true)], 0, Some(Miss), 0)
    ensures Swept(OneNote(), 1120) == OneNote()
  {
    assert Expired(OneNote().notes[0], 1121);
    assert SweptNotes(OneNote().notes, 1121) == [Note(0, 1000, false, true)];
  }

  /** Two notes in one lane: the first press resolves only the first note,
      the second press the second note. */
  lemma TwoNotesInOneLane()
    ensures var p := Play([Note(0, 1000, false, false), Note(0, 1500, false, false)], 0, None, 0);
      var q := Judged(p, 0, 1000);
      && q == Play([Note(0, 1000, true, false), Note(0, 1500, false, false)], 1, Some(Perfect), 10)
      && Judged(q, 0, 1500) == Play([Note(0, 1000, true, false), Note(0, 1500, true, false)], 2, Some(Perfect), 20)
  {
  }

  lemma PressedLanesSteps(pressed: seq<bool>)
    requires |pressed| == 4
    ensures PressedLanes(pressed) ==
      (if pressed[0] then [0] else []) + (if pressed[1] then [1] else []) +
      (if pressed[2] then [2] else []) + (if pressed[3] then [3] else [])
  {
    var l0 := if pressed[0] then [0] else [];
    var l1 := if pressed[1] then [1] else [];
    var l2 := if pressed[2] then [2] else [];
    var l3 := if pressed[3] then [3] else [];
    assert pressed[..1][..0] == [];
    assert PressedLanes(pressed[..1]) == l0;
    assert pressed[..2][..1] == pressed[..1];
    assert PressedLanes(pressed[..2]) == l0 + l1;
    assert pressed[..3][..2] == pressed[..2];
    assert PressedLanes(pressed[..3]) == l0 + l1 + l2;
    assert pressed[..4][..3] == pressed[..3];
    assert pressed[..4] == pressed;
  }

  /** On the demo chart, a press in lane 0 at 1000 ms is Perfect, and a
      tick at 5501 ms with no press sweeps the three notes left. */
  lemma DemoChartTicks(combo: int, judge: Option<Tier>)
    ensures var p := Play(DemoChart().notes, combo, judge, 0);
      var q := Tick(p, [true, false, false, false], 1000);
      && q == Play(DemoChart().notes[0 := Note(0, 1000, true, false)], combo + 1, Some(Perfect), 10)
      && Tick(q, [false, false, false, false], 5501).combo == 0
      && Tick(q, [false, false, false, false], 5501).judge == Some(Miss)
      && Tick(q, [false, false, false, false], 5501).notes ==
         [q.notes[0]] + seq(3, j requires 0 <= j < 3 => q.notes[j + 1].(miss := true))
  {
    var p := Play(DemoChart().notes, combo, judge, 0);
    var pressed := [true, false, false, false];
    PressedLanesSteps(pressed);
    assert PressedLanes(pressed) == [0];
    assert JudgeEach(p, [0], 1000) == Judged(p, 0, 1000);
    var q := Judged(p, 0, 1000);
    assert FirstTarget(p.notes, 0) == Some(0);
    assert !AnyExpired(q.notes, 1000);
    var idle := [false, false, false, false];
    PressedLanesSteps(idle);
    assert PressedLanes(idle) == [];
    assert Expired(q.notes[1], 5501);
    assert JudgeEach(q, [], 5501) == q;
  }

  /** The judgement rules do not check lanes: a note in lane 7 is targeted by
      no key and is swept missed once its window has passed. */
  lemma OutOfRangeLaneIsSwept()
    ensures var p := Play([Note(7, 1000, false, false)], 0, None, 0);
      Tick(p, [true, true, true, true], 1121) == Play([Note(7, 1000, false, true)], 0, Some(Miss), 0)
  {
    var p := Play([Note(7, 1000, false, false)], 0, None, 0);
    PressedLanesSteps([true, true, true, true]);
    assert PressedLanes([true, true, true, true]) == [0, 1, 2, 3];
    JudgedWithoutTargetChangesNothing(p, 0, 1121);
    JudgedWithoutTargetChangesNothing(p, 1, 1121);
    JudgedWithoutTargetChangesNothing(p, 2, 1121);
    JudgedWithoutTargetChangesNothing(p, 3, 1121);
    assert [0, 1, 2, 3][..3] == [0, 1, 2] && [0, 1, 2][..2] == [0, 1] && [0, 1][..1] == [0];
    assert JudgeEach(p, [0], 1121) == p;
    assert JudgeEach(p, [0, 1], 1121) == p;
    assert JudgeEach(p, [0, 1, 2], 1121) == p;
    assert JudgeEach(p, [0, 1, 2, 3], 1121) == p;
    assert Expired(p.notes[0], 1121);
    assert SweptNotes(p.notes, 1121) == [Note(7, 1000, false, true)];
    assert Swept(p, 1121) == Play([Note(7, 1000, false, true)], 0, Some(Miss), 0);
  }

  /** Presses are judged before the sweep: with lane-0 notes at 1000 and
      1150 ms, a press at 1140 ms targets the stale note at 1000, which is
      140 ms away, and is discarded, although the note at 1150 is only 10 ms
      away. */
  lemma StaleNoteSwallowsPress()
    ensures var p := Play([Note(0, 1000, false, false), Note(0, 1150, false, false)], 0, None, 0);
      && Judged(p, 0, 1140) == p
      && Tick(p, [true, false, false, false], 1140) ==
         Play([Note(0, 1000, false, true), Note(0, 1150, false, false)], 0, Some(Miss), 0)
  {
    var p := Play([Note(0, 1000, false, false), Note(0, 1150, false, false)], 0, None, 0);
    assert FirstTarget(p.notes, 0) == Some(0);
    PressedLanesSteps([true, false, false, false]);
    assert JudgeEach(p, [0], 1140) == Judged(p, 0, 1140);
    assert Expired(p.notes[0], 1140);
    assert SweptNotes(p.notes, 1140) == [Note(0, 1000, false, true), Note(0, 1150, false, false)];
  }

  /** The chart's end is taken from its last note in chart order, so on an
      unsorted chart a tick past that end can leave a note unresolved: here
      the end is 1000 + 3000 ms and the note at 5000 ms is still pending at
      4001 ms. */
  lemma UnsortedChartEndsWithPendingNote()
    ensures var c := Chart("Unsorted", 120, 0, [Note(0, 5000, false, false), Note(1, 1000, false, false)]);
      && ChartEnd(c) == 4000
      && Tick(Play(c.notes, 0, None, 0), [false, false, false, false], 4001).notes[0].Pending()
  {
    var p := Play([Note(0, 5000, false, false), Note(1, 1000, false, false)], 0, None, 0);
    PressedLanesSteps([false, false, false, false]);
    assert JudgeEach(p, [], 4001) == p;
    assert Expired(p.notes[1], 4001);
    assert SweptNotes(p.notes, 4001)[0] == p.notes[0];
  }

  /** Start the demo chart, press lane 0 exactly on its note, and let the
      game run to the end of the chart. */
  method PlayDemoChart()
  {
    var g := new Game();
    g.StartNewChart("chart1.json");
    ghost var c, j := g.combo, g.judge;
    assert g.State() == Play(DemoChart().notes, c, j, 0);
    DemoChartTicks(c, j);
    g.Update(1000, [true, false, false, false], false);
    assert g.State() == Play(DemoChart().notes[0 := Note(0, 1000, true, false)], c + 1, Some(Perfect), 10);
    assert g.mode == Playing;
    g.Update(5501, [false, false, false, false], false);
    assert g.mode == Title && g.combo == 0 && g.judge == Some(Miss);
  }
}
