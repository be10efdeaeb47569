/**
 * The judgement rules of the engine as functions over a snapshot of the play
 * state: which note a press targets, which tier it earns, how the miss sweep
 * resolves notes that scrolled past, and what one tick does. The `Game` class
 * in module Engine is proved to follow these functions; the invariants the
 * game promises are proved here about them.
 */
module Judging {
  import opened Wrappers
  import opened Charts

  const LaneCount: int := 4

  /** Judgement windows, in milliseconds either side of a note's time. */
  const PerfectWindowMs: int := 50
  const GreatWindowMs: int := 80
  const GoodWindowMs: int := 100
  const MissWindowMs: int := 120

  /** A chart ends this long after its last note. */
  const TrailingMs: int := 3000

  /** The score of a chart where every note is Perfect. */
  const FullScore: real := 1000000.0

  datatype Tier = Perfect | Great | Good | Miss

  /** The part of the game state the judgement rules read and write: the notes
      in chart order, the combo, the last judgement shown (None before the
      first one) and the score in tenths of a note's share of FullScore. */
  datatype Play = Play(notes: seq<Note>, combo: int, judge: Option<Tier>, points: int)

  function Abs(x: int): nat
  {
    if x < 0 then -x else x
  }

  // ---------------------------------------------------------------------------
  // Classification of one press

  /** The tier of a press `deltaMs` away from its note; None when it is outside
      the Miss window and so is discarded. */
  function Classify(deltaMs: int): (r: Option<Tier>)
    ensures r.Some? <==> Abs(deltaMs) <= MissWindowMs
    ensures r.Some? && r.value != Miss <==> Abs(deltaMs) <= GoodWindowMs
  {
    var d := Abs(deltaMs);
    if d <= PerfectWindowMs then Some(Perfect)
    else if d <= GreatWindowMs then Some(Great)
    else if d <= GoodWindowMs then Some(Good)
    else if d <= MissWindowMs then Some(Miss)
    else None
  }

  /** A tier's score weight, in tenths of a note's share. */
  function Weight(t: Tier): (w: nat)
    ensures w <= 10
    ensures w == 0 <==> t == Miss
  {
    match t
    case Perfect => 10
    case Great => 8
    case Good => 5
    case Miss => 0
  }

  /** The tier table: each band of distances between the windows gives one
      tier, and a press beyond the Miss window is discarded. */
  lemma ClassifyFollowsTable(deltaMs: int)
    ensures var d := Abs(deltaMs);
      && (d <= 50 ==> Classify(deltaMs) == Some(Perfect))
      && (50 < d <= 80 ==> Classify(deltaMs) == Some(Great))
      && (80 < d <= 100 ==> Classify(deltaMs) == Some(Good))
      && (100 < d <= 120 ==> Classify(deltaMs) == Some(Miss))
      && (120 < d ==> Classify(deltaMs) == None)
  {
  }

  /** Early and late presses are treated alike. */
  lemma ClassifyIsSymmetric(deltaMs: int)
    ensures Classify(-deltaMs) == Classify(deltaMs)
  {
  }

  /** A press closer to the note is judged whenever a farther one is, and
      never earns a smaller weight. */
  lemma CloserPressScoresNoLess(d1: int, d2: int)
    requires Abs(d1) <= Abs(d2) && Classify(d2).Some?
    ensures Classify(d1).Some?
    ensures Weight(Classify(d1).value) >= Weight(Classify(d2).value)
  {
  }

  // ---------------------------------------------------------------------------
  // The note a press targets

  /** A note a press in `lane` may resolve. */
  predicate IsTarget(n: Note, lane: int)
  {
    n.lane == lane && n.Pending()
  }

  /** The index of the first note, in chart order, that a press in `lane` may
      resolve; None when the lane has no unresolved note. */
  function FirstTarget(ns: seq<Note>, lane: int): (r: Option<nat>)
    ensures r.Some? ==> r.value < |ns| && IsTarget(ns[r.value], lane)
    ensures r.Some? ==> forall j :: 0 <= j < r.value ==> !IsTarget(ns[j], lane)
    ensures r.None? <==> forall j :: 0 <= j < |ns| ==> !IsTarget(ns[j], lane)
    decreases |ns|
  {
    if |ns| == 0 then None
    else if IsTarget(ns[0], lane) then Some(0)
    else match FirstTarget(ns[1..], lane)
      case None => None
      case Some(i) => Some(i + 1)
  }

  /** On a chart sorted by time, the first target in chart order is also the
      earliest unresolved note of its lane. */
  lemma FirstTargetIsEarliestWhenSorted(ns: seq<Note>, lane: int)
    requires SortedByTime(ns)
    requires FirstTarget(ns, lane).Some?
    ensures forall j :: 0 <= j < |ns| && IsTarget(ns[j], lane) ==>
      ns[FirstTarget(ns, lane).value].timeMs <= ns[j].timeMs
  {
  }

  /** On an unsorted chart the target is chosen by chart order, not by time:
      here the press targets the note due at 1500 although the one due at
      1000 in the same lane is still unresolved. */
  lemma FirstTargetFollowsChartOrder()
    ensures var ns := [Note(0, 1500, false, false), Note(0, 1000, false, false)];
      FirstTarget(ns, 0) == Some(0) && ns[1].timeMs < ns[0].timeMs && IsTarget(ns[1], 0)
  {
  }

  // ---------------------------------------------------------------------------
  // One press

  /** The state after a press in `lane` at song time `nowMs`. */
  function Judged(p: Play, lane: int, nowMs: int): (r: Play)
    ensures |r.notes| == |p.notes|
    ensures p.points <= r.points <= p.points + 10
    ensures r != p ==>
      && FirstTarget(p.notes, lane).Some?
      && Abs(nowMs - p.notes[FirstTarget(p.notes, lane).value].timeMs) <= MissWindowMs
  {
    match FirstTarget(p.notes, lane)
    case None => p
    case Some(i) =>
      match Classify(nowMs - p.notes[i].timeMs)
      case None => p
      case Some(t) =>
        Play(p.notes[i := p.notes[i].(hit := true)],
             if t == Miss then 0 else p.combo + 1,
             Some(t),
             p.points + Weight(t))
  }

  /** A press in a lane with no unresolved note changes nothing. */
  lemma JudgedWithoutTargetChangesNothing(p: Play, lane: int, nowMs: int)
    requires forall j :: 0 <= j < |p.notes| ==> !IsTarget(p.notes[j], lane)
    ensures Judged(p, lane, nowMs) == p
  {
  }

  /** The judgement table: once the target is the first unresolved note of the
      lane in chart order, its distance from the press decides the tier, the
      combo and the score; only that note changes, and it is marked hit even on
      a Miss. A press beyond the Miss window changes nothing. */
  lemma JudgedFollowsTable(p: Play, lane: int, nowMs: int, i: nat)
    requires i < |p.notes| && IsTarget(p.notes[i], lane)
    requires forall j :: 0 <= j < i ==> !IsTarget(p.notes[j], lane)
    ensures var d := Abs(nowMs - p.notes[i].timeMs);
      var hitNotes := p.notes[i := p.notes[i].(hit := true)];
      && (d <= 50 ==> Judged(p, lane, nowMs) == Play(hitNotes, p.combo + 1, Some(Perfect), p.points + 10))
      && (50 < d <= 80 ==> Judged(p, lane, nowMs) == Play(hitNotes, p.combo + 1, Some(Great), p.points + 8))
      && (80 < d <= 100 ==> Judged(p, lane, nowMs) == Play(hitNotes, p.combo + 1, Some(Good), p.points + 5))
      && (100 < d <= 120 ==> Judged(p, lane, nowMs) == Play(hitNotes, 0, Some(Miss), p.points))
      && (120 < d ==> Judged(p, lane, nowMs) == p)
  {
    assert FirstTarget(p.notes, lane) == Some(i);
  }

  // ---------------------------------------------------------------------------
  // The miss sweep

  /** An unresolved note whose Miss window has passed at `nowMs`. */
  predicate Expired(n: Note, nowMs: int)
  {
    n.Pending() && nowMs - n.timeMs > MissWindowMs
  }

  predicate AnyExpired(ns: seq<Note>, nowMs: int)
  {
    exists j :: 0 <= j < |ns| && Expired(ns[j], nowMs)
  }

  function SweptNote(n: Note, nowMs: int): (m: Note)
  {
    if Expired(n, nowMs) then n.(miss := true) else n
  }

  function SweptNotes(ns: seq<Note>, nowMs: int): (r: seq<Note>)
    ensures |r| == |ns|
    ensures forall j :: 0 <= j < |ns| ==>
      && r[j].lane == ns[j].lane && r[j].timeMs == ns[j].timeMs
      && !Expired(r[j], nowMs)
  {
    seq(|ns|, j requires 0 <= j < |ns| => SweptNote(ns[j], nowMs))
  }

  /** The state after the miss sweep at song time `nowMs`. */
  function Swept(p: Play, nowMs: int): (r: Play)
    ensures |r.notes| == |p.notes| && r.points == p.points
    ensures r == p || (r.combo == 0 && r.judge == Some(Miss))
  {
    if AnyExpired(p.notes, nowMs)
    then p.(notes := SweptNotes(p.notes, nowMs), combo := 0, judge := Some(Miss))
    else p
  }

  /** The sweep marks missed exactly the expired notes, leaves every other
      note as it was, resets the combo and shows Miss exactly when it marks
      one, and never changes the score. */
  lemma SweptMarksExactlyExpired(p: Play, nowMs: int)
    ensures var r := Swept(p, nowMs);
      && |r.notes| == |p.notes|
      && (forall j :: 0 <= j < |p.notes| && Expired(p.notes[j], nowMs) ==> r.notes[j] == p.notes[j].(miss := true))
      && (forall j :: 0 <= j < |p.notes| && !Expired(p.notes[j], nowMs) ==> r.notes[j] == p.notes[j])
      && (AnyExpired(p.notes, nowMs) ==> r.combo == 0 && r.judge == Some(Miss))
      && (!AnyExpired(p.notes, nowMs) ==> r.combo == p.combo && r.judge == p.judge)
      && r.points == p.points
  {
  }

  /** After the sweep no note is left unresolved past its Miss window. */
  lemma SweptLeavesNothingExpired(p: Play, nowMs: int)
    ensures !AnyExpired(Swept(p, nowMs).notes, nowMs)
  {
  }

  /** Sweeping twice at the same time is the same as sweeping once. */
  lemma SweptIsIdempotent(p: Play, nowMs: int)
    ensures Swept(Swept(p, nowMs), nowMs) == Swept(p, nowMs)
  {
  }

  // ---------------------------------------------------------------------------
  // One tick

  /** The lanes whose key went down this tick, in lane order. */
  function PressedLanes(pressed: seq<bool>): (r: seq<int>)
    ensures |r| <= |pressed|
    ensures forall k :: 0 <= k < |r| ==> 0 <= r[k] < |pressed|
    decreases |pressed|
  {
    if |pressed| == 0 then []
    else PressedLanes(pressed[..|pressed| - 1]) + (if pressed[|pressed| - 1] then [|pressed| - 1] else [])
  }

  /** The lanes judged in a tick are exactly the pressed ones, each once and
      in increasing lane order. */
  lemma {:induction false} PressedLanesAreThePressedOnesInOrder(pressed: seq<bool>)
    ensures forall x :: x in PressedLanes(pressed) <==> 0 <= x < |pressed| && pressed[x]
    ensures forall a, b :: 0 <= a < b < |PressedLanes(pressed)| ==>
      PressedLanes(pressed)[a] < PressedLanes(pressed)[b]
    decreases |pressed|
  {
    if |pressed| > 0 {
      var front := pressed[..|pressed| - 1];
      PressedLanesAreThePressedOnesInOrder(front);
      forall x | 0 <= x < |front| ensures front[x] == pressed[x] {
      }
      var done := PressedLanes(front);
      forall a | 0 <= a < |done| ensures done[a] < |front| {
        assert done[a] in done;
      }
    }
  }

  /** The state after judging the presses `lanes` one after another. */
  function JudgeEach(p: Play, lanes: seq<int>, nowMs: int): (r: Play)
    ensures |r.notes| == |p.notes|
    ensures p.points <= r.points <= p.points + 10 * |lanes|
    decreases |lanes|
  {
    if |lanes| == 0 then p
    else Judged(JudgeEach(p, lanes[..|lanes| - 1], nowMs), lanes[|lanes| - 1], nowMs)
  }

  /** Judging the presses of the first `lane + 1` keys is judging those of
      the first `lane` keys, then lane `lane` if its key went down. */
  lemma JudgeEachStep(p: Play, pressed: seq<bool>, lane: int, nowMs: int)
    requires 0 <= lane < |pressed|
    ensures var before := JudgeEach(p, PressedLanes(pressed[..lane]), nowMs);
      JudgeEach(p, PressedLanes(pressed[..lane + 1]), nowMs) ==
        if pressed[lane] then Judged(before, lane, nowMs) else before
  {
    var done := PressedLanes(pressed[..lane]);
    assert pressed[..lane + 1][..lane] == pressed[..lane];
    if pressed[lane] {
      assert PressedLanes(pressed[..lane + 1]) == done + [lane];
      assert (done + [lane])[..|done|] == done;
    } else {
      assert PressedLanes(pressed[..lane + 1]) == done;
    }
  }

  /** The state after one tick at `nowMs`: the presses first, then the sweep. */
  function Tick(p: Play, pressed: seq<bool>, nowMs: int): (r: Play)
    ensures |r.notes| == |p.notes|
    ensures p.points <= r.points <= p.points + 10 * |pressed|
  {
    Swept(JudgeEach(p, PressedLanes(pressed), nowMs), nowMs)
  }

  // ---------------------------------------------------------------------------
  // Notes are resolved at most once

  /** `m` is `n`, or `n` was unresolved and `m` is `n` with exactly one of its
      flags set; lane and time never change. */
  predicate Resolves(n: Note, m: Note)
  {
    m == n || (n.Pending() && (m == n.(hit := true) || m == n.(miss := true)))
  }

  /** Every note of `b` is its counterpart in `a`, or that note resolved. */
  predicate Advances(a: seq<Note>, b: seq<Note>)
  {
    |a| == |b| && forall j :: 0 <= j < |a| ==> Resolves(a[j], b[j])
  }

  /** No note has both flags set. */
  predicate WellFlagged(ns: seq<Note>)
  {
    forall j :: 0 <= j < |ns| ==> !(ns[j].hit && ns[j].miss)
  }

  lemma AdvancesIsTransitive(a: seq<Note>, b: seq<Note>, c: seq<Note>)
    requires Advances(a, b) && Advances(b, c)
    ensures Advances(a, c)
  {
    forall j | 0 <= j < |a| ensures Resolves(a[j], c[j]) {
      assert Resolves(a[j], b[j]) && Resolves(b[j], c[j]);
    }
  }

  /** Advancing never clears a flag, never moves a note, and never gives a
      note both flags. */
  lemma AdvancesKeepsFlags(a: seq<Note>, b: seq<Note>)
    requires Advances(a, b)
    ensures forall j :: 0 <= j < |a| ==> b[j].lane == a[j].lane && b[j].timeMs == a[j].timeMs
    ensures forall j :: 0 <= j < |a| ==> (a[j].hit ==> b[j].hit) && (a[j].miss ==> b[j].miss)
    ensures forall j :: 0 <= j < |a| && !a[j].Pending() ==> b[j] == a[j]
    ensures WellFlagged(a) ==> WellFlagged(b)
  {
  }

  lemma JudgedAdvances(p: Play, lane: int, nowMs: int)
    ensures Advances(p.notes, Judged(p, lane, nowMs).notes)
  {
  }

  lemma SweptAdvances(p: Play, nowMs: int)
    ensures Advances(p.notes, Swept(p, nowMs).notes)
  {
  }

  lemma {:induction false} JudgeEachAdvances(p: Play, lanes: seq<int>, nowMs: int)
    ensures Advances(p.notes, JudgeEach(p, lanes, nowMs).notes)
    decreases |lanes|
  {
    if |lanes| > 0 {
      var q := JudgeEach(p, lanes[..|lanes| - 1], nowMs);
      JudgeEachAdvances(p, lanes[..|lanes| - 1], nowMs);
      JudgedAdvances(q, lanes[|lanes| - 1], nowMs);
      AdvancesIsTransitive(p.notes, q.notes, JudgeEach(p, lanes, nowMs).notes);
    }
  }

  /** A tick only resolves notes: it never clears a flag, never touches an
      already resolved note, and never gives a note both flags. */
  lemma TickAdvances(p: Play, pressed: seq<bool>, nowMs: int)
    ensures Advances(p.notes, Tick(p, pressed, nowMs).notes)
  {
    var q := JudgeEach(p, PressedLanes(pressed), nowMs);
    JudgeEachAdvances(p, PressedLanes(pressed), nowMs);
    SweptAdvances(q, nowMs);
    AdvancesIsTransitive(p.notes, q.notes, Tick(p, pressed, nowMs).notes);
  }

  // ---------------------------------------------------------------------------
  // Score bounds

  /** The number of notes resolved by a press. */
  function HitCount(ns: seq<Note>): (c: nat)
    decreases |ns|
  {
    if |ns| == 0 then 0 else (if ns[0].hit then 1 else 0) + HitCount(ns[1..])
  }

  lemma {:induction false} HitCountAtMostLength(ns: seq<Note>)
    ensures HitCount(ns) <= |ns|
    decreases |ns|
  {
    if |ns| > 0 {
      HitCountAtMostLength(ns[1..]);
    }
  }

  lemma {:induction false} HitCountMarkHit(ns: seq<Note>, i: nat)
    requires i < |ns| && !ns[i].hit
    ensures HitCount(ns[i := ns[i].(hit := true)]) == HitCount(ns) + 1
    decreases |ns|
  {
    var ms := ns[i := ns[i].(hit := true)];
    if i == 0 {
      assert ms[1..] == ns[1..];
    } else {
      assert ms[1..] == ns[1..][i - 1 := ns[i].(hit := true)];
      HitCountMarkHit(ns[1..], i - 1);
    }
  }

  lemma {:induction false} HitCountSameHits(a: seq<Note>, b: seq<Note>)
    requires |a| == |b|
    requires forall j :: 0 <= j < |a| ==> a[j].hit == b[j].hit
    ensures HitCount(a) == HitCount(b)
    decreases |a|
  {
    if |a| > 0 {
      HitCountSameHits(a[1..], b[1..]);
    }
  }

  /** What holds of the play state at every step: the combo is never negative
      and each press-resolved note has earned at most a full share. */
  predicate Consistent(p: Play)
  {
    0 <= p.combo && 0 <= p.points <= 10 * HitCount(p.notes)
  }

  /** A press keeps the state consistent and never lowers the score. */
  lemma JudgedKeepsConsistent(p: Play, lane: int, nowMs: int)
    requires Consistent(p)
    ensures Consistent(Judged(p, lane, nowMs))
    ensures Judged(p, lane, nowMs).points >= p.points
  {
    match FirstTarget(p.notes, lane)
    case None =>
    case Some(i) =>
      if Classify(nowMs - p.notes[i].timeMs).Some? {
        HitCountMarkHit(p.notes, i);
      }
  }

  /** The sweep keeps the state consistent and leaves the score alone. */
  lemma SweptKeepsConsistent(p: Play, nowMs: int)
    requires Consistent(p)
    ensures Consistent(Swept(p, nowMs))
    ensures Swept(p, nowMs).points == p.points
  {
    if AnyExpired(p.notes, nowMs) {
      HitCountSameHits(p.notes, SweptNotes(p.notes, nowMs));
    }
  }

  lemma {:induction false} JudgeEachKeepsConsistent(p: Play, lanes: seq<int>, nowMs: int)
    requires Consistent(p)
    ensures Consistent(JudgeEach(p, lanes, nowMs))
    ensures JudgeEach(p, lanes, nowMs).points >= p.points
    decreases |lanes|
  {
    if |lanes| > 0 {
      JudgeEachKeepsConsistent(p, lanes[..|lanes| - 1], nowMs);
      JudgedKeepsConsistent(JudgeEach(p, lanes[..|lanes| - 1], nowMs), lanes[|lanes| - 1], nowMs);
    }
  }

  /** A tick keeps the state consistent and never lowers the score. */
  lemma TickKeepsConsistent(p: Play, pressed: seq<bool>, nowMs: int)
    requires Consistent(p)
    ensures Consistent(Tick(p, pressed, nowMs))
    ensures Tick(p, pressed, nowMs).points >= p.points
  {
    JudgeEachKeepsConsistent(p, PressedLanes(pressed), nowMs);
    SweptKeepsConsistent(JudgeEach(p, PressedLanes(pressed), nowMs), nowMs);
  }

  /** The score shown for `points` tenths of a note's share on a chart of
      `n` notes. */
  function ScoreValue(points: int, n: int): (s: real)
    requires n > 0
    ensures 0 <= points <= 10 * n ==> 0.0 <= s <= FullScore
    ensures s == 0.0 <==> points == 0
  {
    (points as real) * (FullScore / (n as real)) / 10.0
  }

  /** A consistent state's score lies between 0 and FullScore. */
  lemma ScoreWithinFullScore(p: Play)
    requires Consistent(p) && |p.notes| > 0
    ensures 0.0 <= ScoreValue(p.points, |p.notes|) <= FullScore
  {
    HitCountAtMostLength(p.notes);
  }

  // ---------------------------------------------------------------------------
  // The end of a chart

  /** The song time after which the chart is over: the last note in chart
      order plus the trailing time. */
  function ChartEnd(c: Chart): (r: int)
    requires |c.notes| > 0
    ensures SortedByTime(c.notes) ==> forall j :: 0 <= j < |c.notes| ==> c.notes[j].timeMs + TrailingMs <= r
  {
    c.notes[|c.notes| - 1].timeMs + TrailingMs
  }

  /** On a chart sorted by time, a tick past the chart's end leaves no note
      unresolved, because the sweep runs before the end check. */
  lemma TickPastEndResolvesAll(p: Play, pressed: seq<bool>, nowMs: int)
    requires SortedByTime(p.notes) && |p.notes| > 0
    requires nowMs > p.notes[|p.notes| - 1].timeMs + TrailingMs
    ensures |Tick(p, pressed, nowMs).notes| == |p.notes|
    ensures forall j :: 0 <= j < |p.notes| ==> !Tick(p, pressed, nowMs).notes[j].Pending()
  {
    var q := JudgeEach(p, PressedLanes(pressed), nowMs);
    var r := Tick(p, pressed, nowMs);
    JudgeEachAdvances(p, PressedLanes(pressed), nowMs);
    AdvancesKeepsFlags(p.notes, q.notes);
    SweptLeavesNothingExpired(q, nowMs);
    SweptAdvances(q, nowMs);
    AdvancesKeepsFlags(q.notes, r.notes);
    forall j | 0 <= j < |p.notes| ensures !r.notes[j].Pending() {
      assert p.notes[j].timeMs <= p.notes[|p.notes| - 1].timeMs;
      assert !Expired(r.notes[j], nowMs);
    }
  }

  // ---------------------------------------------------------------------------
  // The demo chart

  /** The demo chart's lanes are all valid, its notes start unresolved with no
      note flagged twice, its first target per lane is the earliest, and it
      ends at 5500 ms. */
  lemma DemoChartFacts()
    ensures forall j :: 0 <= j < |DemoChart().notes| ==> 0 <= DemoChart().notes[j].lane < LaneCount
    ensures WellFlagged(DemoChart().notes)
    ensures SortedByTime(DemoChart().notes)
    ensures ChartEnd(DemoChart()) == 5500
  {
  }
}
