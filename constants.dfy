/** The editor constants the modelled code reads (components/utils/constants.py). */
module Constants {

  /** What the editor is doing: replaying a run, editing the automaton, or showing a finished run. */
  datatype AppMode = Running | Drawing | Finished

  /** Distance, in pixels, between neighbouring parallel arrows. */
  const ParallelOffset: int := 13

  /** The colour of an arrow that needs no attention. */
  const ColorBlack: string := "#000000"
}
