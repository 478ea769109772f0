/** Shared vocabulary of the playlist generator: identifiers, Python-level
    outcomes and a few sequence helpers. */
module Common {

  /** A value that may be absent (Python `None` / JSON `null`). */
  datatype Option<T> = None | Some(value: T)

  /** Spotify identifiers are opaque strings. */
  type ArtistId = string
  type TrackUri = string

  /** How a piece of the Python code ends: it returns a value, it raises a
      `KeyError` when a JSON body lacks the key it indexes, or it is still
      looping when the model's fuel bound is used up. */
  datatype Exec<T> = Done(value: T) | KeyError(key: string) | OutOfFuel

  /** Python truthiness of a string: only the empty string is falsy. */
  predicate TruthyString(s: string)
  {
    s != ""
  }

  /** Python truthiness of an optional string: `None` and `''` are falsy. */
  predicate TruthyOption(v: Option<string>)
  {
    v.Some? && v.value != ""
  }

  /** The text an f-string gives for an optional string (`None` renders as "None"). */
  function Format(v: Option<string>): string
  {
    match v
    case None => "None"
    case Some(s) => s
  }

  /** Concatenation of a sequence of sequences, in order. */
  function Flatten<T>(ss: seq<seq<T>>): seq<T>
  {
    if ss == [] then [] else ss[0] + Flatten(ss[1..])
  }

  /** Sum of the lengths of a sequence of sequences. */
  function TotalLength<T>(ss: seq<seq<T>>): nat
  {
    if ss == [] then 0 else |ss[0]| + TotalLength(ss[1..])
  }

  /** The flattened sequence is as long as all the pieces together. */
  lemma {:induction false} FlattenLength<T>(ss: seq<seq<T>>)
    ensures |Flatten(ss)| == TotalLength(ss)
  {
    if ss != [] {
      FlattenLength(ss[1..]);
    }
  }
}
