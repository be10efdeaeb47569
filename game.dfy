/**
 * The game object of the engine: the play state it updates in place on every
 * tick, and the moves between the title screen and play. Each method is proved
 * to do what the corresponding function of module Judging describes.
 */
module Engine {
  import opened Wrappers
  import opened Charts
  import opened Judging

  datatype Mode = Title | Playing

  class Game {
    var mode: Mode
    var songStarted: bool
    var songTimeMs: int
    var combo: int
    /** The last judgement shown; None until the first one. */
    var judge: Option<Tier>
    /** The score, in tenths of `scorePerNote`. */
    var points: int
    var scorePerNote: real
    var chartEndMs: int
    /** The current chart's notes, resolved in place. */
    var notes: array<Note>

    ghost predicate Valid()
      reads this, notes
    {
      && Consistent(State())
      && (songStarted ==> notes.Length > 0 && scorePerNote == FullScore / (notes.Length as real))
      && (mode == Playing ==> songStarted)
    }

    /** The part of the game the judgement rules act on. */
    function State(): Play
      reads this, notes
    {
      Play(notes[..], combo, judge, points)
    }

    /** The score shown to the player; never negative and never above FullScore. */
    function Score(): (s: real)
      reads this, notes
      requires Valid() && songStarted
      ensures 0.0 <= s <= FullScore
    {
      ScoreWithinFullScore(State());
      ScoreValue(points, notes.Length)
    }

    /** A new game on the title screen, with no chart loaded. */
    constructor ()
      ensures Valid() && fresh(notes)
      ensures mode == Title && !songStarted
      ensures State() == Play([], 0, None, 0)
      ensures songTimeMs == 0 && scorePerNote == 0.0 && chartEndMs == 0
    {
      mode := Title;
      songStarted := false;
      songTimeMs := 0;
      combo := 0;
      judge := None;
      points := 0;
      scorePerNote := 0.0;
      chartEndMs := 0;
      notes := new Note[0];
    }

    /** Takes `c` as the current chart and resets the score. The combo, the
        last judgement and the song time are kept. */
    method Start(c: Chart)
      requires Valid() && |c.notes| > 0
      modifies this
      ensures Valid() && fresh(notes)
      ensures songStarted && notes[..] == c.notes
      ensures points == 0 && scorePerNote == FullScore / (|c.notes| as real)
      ensures combo == old(combo) && judge == old(judge) && songTimeMs == old(songTimeMs)
      ensures mode == old(mode) && chartEndMs == old(chartEndMs)
    {
      songStarted := true;
      notes := new Note[|c.notes|](j requires 0 <= j < |c.notes| => c.notes[j]);
      points := 0;
      scorePerNote := FullScore / (notes.Length as real);
    }

    /** Loads the demo chart (the path is not read), sets the chart's end to
        its last note plus the trailing time, and starts playing. */
    method StartNewChart(chartPath: string)
      requires Valid()
      modifies this
      ensures Valid() && fresh(notes)
      ensures mode == Playing && songStarted
      ensures notes[..] == DemoChart().notes && chartEndMs == ChartEnd(DemoChart())
      ensures points == 0 && scorePerNote == FullScore / 4.0
      ensures combo == old(combo) && judge == old(judge) && songTimeMs == old(songTimeMs)
    {
      var chart := DemoChart();
      var lastNote := chart.notes[|chart.notes| - 1];
      chartEndMs := lastNote.timeMs + TrailingMs;
      Start(chart);
      mode := Playing;
    }

    /** One frame: on the title screen a click on the start button starts the
        demo chart; while playing, the tick runs at song time `nowMs` with the
        lanes whose key went down in `pressed`. */
    method Update(nowMs: int, pressed: seq<bool>, startClicked: bool)
      requires Valid() && |pressed| == LaneCount
      modifies this, notes
      ensures Valid()
      ensures old(mode) == Title && !startClicked ==> unchanged(this) && unchanged(notes)
      ensures old(mode) == Title && startClicked ==>
        && mode == Playing && songStarted && fresh(notes) && notes[..] == DemoChart().notes
        && chartEndMs == ChartEnd(DemoChart()) && points == 0
        && combo == old(combo) && judge == old(judge) && songTimeMs == old(songTimeMs)
      ensures old(mode) == Playing ==>
        && songStarted && notes == old(notes) && songTimeMs == nowMs
        && State() == Tick(old(State()), pressed, nowMs)
        && mode == (if nowMs > chartEndMs then Title else Playing)
        && chartEndMs == old(chartEndMs) && scorePerNote == old(scorePerNote)
    {
      match mode
      case Title =>
        if startClicked {
          StartNewChart("chart1.json");
        }
      case Playing =>
        UpdatePlaying(nowMs, pressed);
    }

    /** One tick of play at song time `nowMs`: judge the presses, sweep the
        notes that scrolled past, and return to the title once the chart is
        over. */
    method UpdatePlaying(nowMs: int, pressed: seq<bool>)
      requires Valid() && mode == Playing && |pressed| == LaneCount
      modifies this, notes
      ensures Valid() && notes == old(notes) && songTimeMs == nowMs
      ensures State() == Tick(old(State()), pressed, nowMs)
      ensures mode == (if nowMs > chartEndMs then Title else Playing)
      ensures songStarted && scorePerNote == old(scorePerNote) && chartEndMs == old(chartEndMs)
    {
      songTimeMs := nowMs;
      ProcessInputAndJudgement(pressed);
      UpdateAutoMiss();
      if songTimeMs > chartEndMs {
        mode := Title;
      }
    }

    /** Judges a press in every lane whose key went down, in lane order. */
    method ProcessInputAndJudgement(pressed: seq<bool>)
      requires Valid() && |pressed| == LaneCount
      modifies notes, this`combo, this`judge, this`points
      ensures Valid()
      ensures State() == JudgeEach(old(State()), PressedLanes(pressed), songTimeMs)
    {
      for lane := 0 to |pressed|
        invariant Valid()
        invariant State() == JudgeEach(old(State()), PressedLanes(pressed[..lane]), songTimeMs)
      {
        JudgeEachStep(old(State()), pressed, lane, songTimeMs);
        if pressed[lane] {
          JudgeLane(lane);
        }
      }
      assert pressed[..|pressed|] == pressed;
    }

    /** The index of the first note, in chart order, that a press in `lane`
        may resolve. */
    method FindTarget(lane: int) returns (target: Option<nat>)
      ensures target == FirstTarget(notes[..], lane)
    {
      var k := 0;
      while k < notes.Length
        invariant 0 <= k <= notes.Length
        invariant forall j :: 0 <= j < k ==> !IsTarget(notes[j], lane)
      {
        var note := notes[k];
        if note.lane == lane && !note.miss && !note.hit {
          return Some(k);
        }
        k := k + 1;
      }
      return None;
    }

    /** A press in `lane` at the current song time. */
    method JudgeLane(lane: int)
      requires Valid()
      modifies notes, this`combo, this`judge, this`points
      ensures Valid()
      ensures State() == Judged(old(State()), lane, songTimeMs)
    {
      ghost var p := State();
      var target := FindTarget(lane);
      if target.None? {
        return;
      }
      var i := target.value;
      var ad := Abs(songTimeMs - notes[i].timeMs);
      var heavy := 10;
      if ad <= PerfectWindowMs {
        judge := Some(Perfect);
        combo := combo + 1;
      } else if ad <= GreatWindowMs {
        judge := Some(Great);
        combo := combo + 1;
        heavy := 8;
      } else if ad <= GoodWindowMs {
        judge := Some(Good);
        combo := combo + 1;
        heavy := 5;
      } else if ad <= MissWindowMs {
        judge := Some(Miss);
        combo := 0;
        heavy := 0;
      } else {
        return;
      }
      notes[i] := notes[i].(hit := true);
      points := points + heavy;
      assert notes[..] == p.notes[i := p.notes[i].(hit := true)];
      JudgedFollowsTable(p, lane, songTimeMs, i);
      assert State() == Judged(p, lane, songTimeMs);
      JudgedKeepsConsistent(p, lane, songTimeMs);
    }

    /** Marks missed every unresolved note whose Miss window has passed at the
        current song time. */
    method UpdateAutoMiss()
      requires Valid()
      modifies notes, this`combo, this`judge
      ensures Valid()
      ensures State() == Swept(old(State()), songTimeMs)
    {
      ghost var before := notes[..];
      var k := 0;
      while k < notes.Length
        invariant 0 <= k <= notes.Length
        invariant forall j :: 0 <= j < k ==> notes[j] == SweptNote(before[j], songTimeMs)
        invariant forall j :: k <= j < notes.Length ==> notes[j] == before[j]
        invariant AnyExpired(before[..k], songTimeMs) ==> combo == 0 && judge == Some(Miss)
        invariant !AnyExpired(before[..k], songTimeMs) ==> combo == old(combo) && judge == old(judge)
      {
        var note := notes[k];
        if !note.hit && !note.miss && songTimeMs - note.timeMs > MissWindowMs {
          assert Expired(before[..k + 1][k], songTimeMs);
          notes[k] := note.(miss := true);
          judge := Some(Miss);
          combo := 0;
        } else {
          assert !Expired(before[k], songTimeMs);
          assert forall j :: 0 <= j < k + 1 && Expired(before[..k + 1][j], songTimeMs) ==>
            Expired(before[..k][j], songTimeMs);
        }
        k := k + 1;
      }
      assert before[..notes.Length] == before;
      if AnyExpired(before, songTimeMs) {
        assert notes[..] == SweptNotes(before, songTimeMs);
      } else {
        assert notes[..] == before;
      }
      SweptKeepsConsistent(old(State()), songTimeMs);
    }
  }
}
