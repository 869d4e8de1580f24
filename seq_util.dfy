/** The two ways the program bounds an array it appends to. */
module SeqUtil {

  /** `push(x)` followed by `if (length > cap) splice(0, drop)`: once the
      array outgrows `cap`, its `drop` oldest items go in one step. */
  function AppendBounded<T>(buf: seq<T>, x: T, cap: nat, drop: nat): (out: seq<T>)
    requires 0 < drop <= cap
    ensures |buf| < cap ==> out == buf + [x]
    ensures |buf| >= cap ==> out == buf[drop..] + [x]
    ensures |buf| <= cap ==> |out| <= cap
    ensures |out| > 0 && out[|out| - 1] == x
  {
    var pushed := buf + [x];
    if |pushed| > cap then pushed[drop..] else pushed
  }

  /** `if (length > n) splice(0, length - n)`: keep the newest `n` items. */
  function KeepNewest<T>(s: seq<T>, n: nat): (out: seq<T>)
    ensures |out| == if |s| < n then |s| else n
    ensures out == s[|s| - |out|..]
  {
    if |s| > n then s[|s| - n..] else s
  }

  /** A repetition-free sequence drawn from `allowed` is no longer than `allowed` is large. */
  lemma {:induction false} DistinctWithin<T>(s: seq<T>, allowed: set<T>)
    requires forall i, j :: 0 <= i < j < |s| ==> s[i] != s[j]
    requires forall i :: 0 <= i < |s| ==> s[i] in allowed
    ensures |s| <= |allowed|
  {
    if s != [] {
      var x := s[|s| - 1];
      DistinctWithin(s[..|s| - 1], allowed - {x});
    }
  }

  /** How many of `s` succeed when exactly the items whose code is in `failing`
      throw: the `savedCount++` after an `await` inside a per-item `try`. */
  function Succeeded<T>(s: seq<T>, code: T -> string, failing: set<string>): (n: nat)
    ensures n <= |s|
  {
    if s == [] then 0
    else Succeeded(s[..|s| - 1], code, failing) + (if code(s[|s| - 1]) in failing then 0 else 1)
  }

  lemma SucceededSnoc<T>(s: seq<T>, x: T, code: T -> string, failing: set<string>)
    ensures Succeeded(s + [x], code, failing)
            == Succeeded(s, code, failing) + (if code(x) in failing then 0 else 1)
  {
    assert (s + [x])[..|s|] == s;
  }

  /** Every item counts unless it throws, and one failure does not stop the
      rest: all count iff none throws, none counts iff all throw. */
  lemma {:induction false} SucceededMeaning<T>(s: seq<T>, code: T -> string, failing: set<string>)
    ensures Succeeded(s, code, failing) == |s| <==> forall i :: 0 <= i < |s| ==> code(s[i]) !in failing
    ensures Succeeded(s, code, failing) == 0 <==> forall i :: 0 <= i < |s| ==> code(s[i]) in failing
  {
    if s != [] {
      var init := s[..|s| - 1];
      SucceededMeaning(init, code, failing);
      assert forall i :: 0 <= i < |init| ==> init[i] == s[i];
    }
  }
}
