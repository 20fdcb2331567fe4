/** A song as the mix planner sees it. */
module Songs {
  import opened Camelot

  /** `energy` is only ever compared, so any ordered number type would do. */
  datatype Song = Song(name: string, bpm: int, key: string, camelotKey: Code, energy: real)
}
