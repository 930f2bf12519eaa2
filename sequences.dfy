/** The abstract contents of a vector are a sequence; these are the two
    positional edits that Emplace/Insert and Erase perform on it. */
module Sequences {

  /** The sequence `s` with `v` inserted so that it lands at position `p`. */
  function InsertAt<T>(s: seq<T>, p: nat, v: T): (r: seq<T>)
    requires p <= |s|
    ensures |r| == |s| + 1 && r[p] == v
    ensures forall i :: 0 <= i < p ==> r[i] == s[i]
    ensures forall i :: p < i < |r| ==> r[i] == s[i - 1]
  {
    s[..p] + [v] + s[p..]
  }

  /** The sequence `s` without its element at position `p`. */
  function RemoveAt<T>(s: seq<T>, p: nat): (r: seq<T>)
    requires p < |s|
    ensures |r| == |s| - 1
    ensures forall i :: 0 <= i < p ==> r[i] == s[i]
    ensures forall i :: p <= i < |r| ==> r[i] == s[i + 1]
  {
    s[..p] + s[p + 1..]
  }

  /** Erasing at the position just inserted at restores the sequence. */
  lemma RemoveAfterInsert<T>(s: seq<T>, p: nat, v: T)
    requires p <= |s|
    ensures RemoveAt(InsertAt(s, p, v), p) == s
  {
  }

  /** Re-inserting an erased element at its old position restores the sequence. */
  lemma InsertAfterRemove<T>(s: seq<T>, p: nat)
    requires p < |s|
    ensures InsertAt(RemoveAt(s, p), p, s[p]) == s
  {
  }

  /** Inserting at the front gives the same sequence as appending exactly when
      every element already equals the inserted one. */
  lemma {:induction false} FrontInsertIsAppendIff<T>(s: seq<T>, v: T)
    ensures InsertAt(s, 0, v) == s + [v] <==> forall i :: 0 <= i < |s| ==> s[i] == v
  {
    var front, back := InsertAt(s, 0, v), s + [v];
    if forall i :: 0 <= i < |s| ==> s[i] == v {
      assert forall i :: 0 <= i < |front| ==> front[i] == v == back[i];
    }
    if front == back {
      forall i | 0 <= i < |s|
        ensures s[i] == v
      {
        AllEqualUpTo(s, v, i);
      }
    }
  }

  /** If `[v] + s == s + [v]` then every element of `s` up to `i` is `v`. */
  lemma {:induction false} AllEqualUpTo<T>(s: seq<T>, v: T, i: nat)
    requires i < |s| && [v] + s == s + [v]
    ensures s[i] == v
  {
    if i == 0 {
      assert ([v] + s)[0] == (s + [v])[0];
    } else {
      AllEqualUpTo(s, v, i - 1);
      assert ([v] + s)[i] == (s + [v])[i];
    }
  }
}
