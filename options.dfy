/** An optional value: the game's `null`-or-record results (a hint cell, a parsed time). */
module Options {
  datatype Option<+T> = None | Some(value: T)
}
