/** Writing one sequence over part of another. */
module Patches {

  /** s with v in place from position at on */
  function Patch<T>(s: seq<T>, at: nat, v: seq<T>): (t: seq<T>)
    requires at + |v| <= |s|
    ensures |t| == |s|
    ensures forall i | 0 <= i < |s| :: t[i] == if at <= i < at + |v| then v[i - at] else s[i]
  {
    s[..at] + v + s[at + |v|..]
  }

  /** Patching piece by piece is patching at once. */
  lemma PatchTwice<T>(s: seq<T>, at: nat, v: seq<T>, w: seq<T>)
    requires at + |v| + |w| <= |s|
    ensures Patch(Patch(s, at, v), at + |v|, w) == Patch(s, at, v + w)
  {
  }
}
