/** Sequences of steps in any state machine. */
module Paths {

  ghost predicate IsPath<S, A>(ok: (S, A) -> bool, next: (S, A) -> S, s: S, path: seq<A>)
    decreases |path|
  {
    path == [] || (ok(s, path[0]) && IsPath(ok, next, next(s, path[0]), path[1..]))
  }

  ghost function Follow<S, A>(next: (S, A) -> S, s: S, path: seq<A>): S
    decreases |path|
  {
    if path == [] then s else Follow(next, next(s, path[0]), path[1..])
  }

  lemma {:induction false} PathConcat<S, A>(ok: (S, A) -> bool, next: (S, A) -> S, s: S, first: seq<A>, second: seq<A>)
    requires IsPath(ok, next, s, first) && IsPath(ok, next, Follow(next, s, first), second)
    ensures IsPath(ok, next, s, first + second)
    ensures Follow(next, s, first + second) == Follow(next, Follow(next, s, first), second)
    decreases |first|
  {
    if first == [] {
      assert first + second == second;
    } else {
      PathConcat(ok, next, next(s, first[0]), first[1..], second);
      assert (first + second)[0] == first[0] && (first + second)[1..] == first[1..] + second;
    }
  }
}
