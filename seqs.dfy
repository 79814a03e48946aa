/** Regrouping of sequence concatenations, for the command and event logs of the other modules. */
module Seqs {

  lemma AppendAssoc<T>(a: seq<T>, b: seq<T>, c: seq<T>)
    ensures a + b + c == a + (b + c)
  {
  }

  lemma AppendTwo<T>(s: seq<T>, x: T, y: T)
    ensures s + [x] + [y] == s + [x, y]
  {
  }

  lemma AppendThird<T>(s: seq<T>, x: T, y: T, z: T)
    ensures s + [x, y] + [z] == s + [x, y, z]
  {
  }
}
