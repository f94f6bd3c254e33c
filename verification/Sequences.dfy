/** Sequences of sequences, shared by the models. */
module Sequences {

  /** The pieces one after the other. */
  function Flatten<T>(pieces: seq<seq<T>>): seq<T> {
    if pieces == [] then [] else pieces[0] + Flatten(pieces[1..])
  }
}
