/** Small vocabulary shared by every component of the model. */
module Common {

  /** A value that may be absent: the source's null pointers, failed searches and free mutexes. */
  datatype Option<+T> = None | Some(value: T)

  /** The number of elements of `s` that satisfy `p`. */
  function Count<T>(s: seq<T>, p: T -> bool): nat {
    if s == [] then 0
    else Count(s[..|s| - 1], p) + (if p(s[|s| - 1]) then 1 else 0)
  }

  lemma {:induction false} CountAppend<T>(s: seq<T>, x: T, p: T -> bool)
    ensures Count(s + [x], p) == Count(s, p) + (if p(x) then 1 else 0)
  {
    assert (s + [x])[..|s|] == s;
  }

  lemma {:induction false} CountUpdate<T>(s: seq<T>, i: nat, x: T, p: T -> bool)
    requires i < |s|
    ensures Count(s[i := x], p) ==
            Count(s, p) - (if p(s[i]) then 1 else 0) + (if p(x) then 1 else 0)
  {
    var n := |s| - 1;
    if i == n {
      assert s[i := x][..n] == s[..n];
    } else {
      assert s[i := x][..n] == s[..n][i := x];
      CountUpdate(s[..n], i, x, p);
    }
  }

  /** An element that satisfies `p` is counted. */
  lemma {:induction false} CountPositive<T>(s: seq<T>, i: nat, p: T -> bool)
    requires i < |s| && p(s[i])
    ensures Count(s, p) > 0
  {
    if i == |s| - 1 {
    } else {
      CountPositive(s[..|s| - 1], i, p);
    }
  }

  /** When at most one position satisfies `p`, the count is at most one. */
  lemma {:induction false} CountAtMostOne<T>(s: seq<T>, p: T -> bool)
    requires forall i, j :: 0 <= i < |s| && 0 <= j < |s| && p(s[i]) && p(s[j]) ==> i == j
    ensures Count(s, p) <= 1
  {
    if s == [] {
    } else {
      var n := |s| - 1;
      CountAtMostOne(s[..n], p);
      if p(s[n]) && Count(s[..n], p) > 0 {
        var i := CountWitness(s[..n], p);
        assert false;
      }
    }
  }

  /** A positive count comes from some position. */
  lemma {:induction false} CountWitness<T>(s: seq<T>, p: T -> bool) returns (i: nat)
    requires Count(s, p) > 0
    ensures i < |s| && p(s[i])
  {
    if p(s[|s| - 1]) {
      i := |s| - 1;
    } else {
      i := CountWitness(s[..|s| - 1], p);
    }
  }

  /** If every element satisfying `p` satisfies `q` or `r`, then p's count is at most the sum. */
  lemma {:induction false} CountSplit<T>(s: seq<T>, p: T -> bool, q: T -> bool, r: T -> bool)
    requires forall i :: 0 <= i < |s| && p(s[i]) ==> q(s[i]) || r(s[i])
    ensures Count(s, p) <= Count(s, q) + Count(s, r)
  {
    if s == [] {
    } else {
      CountSplit(s[..|s| - 1], p, q, r);
    }
  }

  /** No value occurs twice. */
  ghost predicate NoDuplicates<T>(s: seq<T>) {
    forall i, j :: 0 <= i < j < |s| ==> s[i] != s[j]
  }

  // ---- Texts ----

  /** Concatenation. */
  function Join(texts: seq<string>): string {
    if texts == [] then "" else Join(texts[..|texts| - 1]) + texts[|texts| - 1]
  }

  lemma Assoc(a: string, b: string, c: string)
    ensures a + b + c == a + (b + c)
  {
  }

  lemma JoinSnoc(texts: seq<string>, text: string)
    ensures Join(texts + [text]) == Join(texts) + text
  {
    assert (texts + [text])[..|texts|] == texts;
  }

  lemma {:induction false} JoinConcat(a: seq<string>, b: seq<string>)
    ensures Join(a + b) == Join(a) + Join(b)
  {
    if b == [] {
      assert a + b == a;
    } else {
      var n := |b| - 1;
      JoinConcat(a, b[..n]);
      JoinSnoc(a + b[..n], b[n]);
      assert a + b == a + b[..n] + [b[n]];
      Assoc(Join(a), Join(b[..n]), b[n]);
    }
  }

  // ---- Runs of a step machine ----

  /** A finite run from `init`: `states[k + 1]` is the result of `actions[k]` in `states[k]`. */
  ghost predicate IsRun<S, A>(init: S, next: (S, A) -> Option<S>, states: seq<S>, actions: seq<A>) {
    && |states| == |actions| + 1
    && states[0] == init
    && forall k :: 0 <= k < |actions| ==> next(states[k], actions[k]) == Some(states[k + 1])
  }

  /** What holds initially and is kept by every step holds in every state of every run. */
  lemma {:induction false} RunInvariant<S(!new), A(!new)>(
      init: S, next: (S, A) -> Option<S>, inv: S -> bool, states: seq<S>, actions: seq<A>, k: nat)
    requires IsRun(init, next, states, actions) && k < |states|
    requires inv(init)
    requires forall s, a :: inv(s) && next(s, a).Some? ==> inv(next(s, a).value)
    ensures inv(states[k])
  {
    if k == 0 {
    } else {
      RunInvariant(init, next, inv, states, actions, k - 1);
      var i := k - 1;
      assert next(states[i], actions[i]) == Some(states[i + 1]);
    }
  }

  /** What every step from `j` on keeps still holds at `k`. */
  lemma {:induction false} RunStable<S>(p: S -> bool, states: seq<S>, j: nat, k: nat)
    requires j <= k < |states| && p(states[j])
    requires forall i :: j <= i < k && p(states[i]) ==> p(states[i + 1])
    ensures p(states[k])
  {
    if j == k {
    } else {
      RunStable(p, states, j, k - 1);
    }
  }
}
