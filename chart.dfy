/**
 * The chart records of the engine: a note scheduled in a lane at a song time,
 * and the chart that lists the notes of one song in order.
 */
module Charts {

  /** A note in `lane` due `timeMs` after the song starts. `hit` and `miss` record
      how it was resolved: by a press, or by the sweep that catches notes that
      scrolled past. */
  datatype Note = Note(lane: int, timeMs: int, hit: bool, miss: bool)
  {
    /** Neither a press nor the sweep has resolved this note yet. */
    predicate Pending()
    {
      !hit && !miss
    }
  }

  /** A song's chart. `song`, `bpm` and `offsetMs` are carried but never read by the engine. */
  datatype Chart = Chart(song: string, bpm: int, offsetMs: int, notes: seq<Note>)

  /** The notes appear in non-decreasing order of their scheduled time. */
  predicate SortedByTime(ns: seq<Note>)
  {
    forall i, j :: 0 <= i < j < |ns| ==> ns[i].timeMs <= ns[j].timeMs
  }

  /** The built-in demo chart: one unresolved note per lane, half a second apart. */
  function DemoChart(): (c: Chart)
    ensures c.song == "Demo" && c.bpm == 120 && c.offsetMs == 0
    ensures |c.notes| == 4
    ensures forall i :: 0 <= i < |c.notes| ==> c.notes[i].Pending()
    ensures forall i :: 0 <= i < |c.notes| ==> c.notes[i].lane == i
    ensures forall i, j :: 0 <= i < j < |c.notes| ==> c.notes[i].timeMs < c.notes[j].timeMs
    ensures c.notes[0].timeMs == 1000 && c.notes[3].timeMs == 2500
  {
    Chart("Demo", 120, 0, [
      Note(0, 1000, false, false),
      Note(1, 1500, false, false),
      Note(2, 2000, false, false),
      Note(3, 2500, false, false)
    ])
  }
}
