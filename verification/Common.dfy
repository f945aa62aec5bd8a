/** Vocabulary shared by every module: optional values, time units, least and
    greatest elements, and the counting facts behind the pigeonhole arguments. */
module Common {
  datatype Option<+T> = None | Some(value: T)

  /** An instant counts microseconds, the resolution of the program's datetimes,
      from the earliest instant a datetime can hold. */
  type Instant = nat

  const SECOND: int := 1_000_000
  const MINUTE: int := 60 * SECOND
  const HOUR: int := 60 * MINUTE
  const DAY: int := 24 * HOUR

  ghost predicate StrictlyIncreasing(s: seq<Instant>) {
    forall i, j :: 0 <= i < j < |s| ==> s[i] < s[j]
  }

  ghost predicate NonDecreasing(s: seq<Instant>) {
    forall i, j :: 0 <= i < j < |s| ==> s[i] <= s[j]
  }

  ghost predicate NoRepeats<T>(s: seq<T>) {
    forall i, j :: 0 <= i < j < |s| ==> s[i] != s[j]
  }

  function Take<T>(s: seq<T>, n: nat): seq<T> {
    if n < |s| then s[..n] else s
  }

  function Elems<T>(s: seq<T>): set<T> {
    set x | x in s
  }

  lemma {:induction false} ElemsSize<T>(s: seq<T>)
    ensures |Elems(s)| <= |s|
  {
    if s == [] {
      assert Elems(s) == {};
    } else {
      ElemsSize(s[1..]);
      assert Elems(s) == {s[0]} + Elems(s[1..]);
    }
  }

  /** A repetition-free sequence drawn from a set is no longer than the set. */
  lemma {:induction false} Pigeonhole<T>(s: seq<T>, pool: set<T>)
    requires NoRepeats(s)
    requires forall x | x in s :: x in pool
    ensures |s| <= |pool|
  {
    if s != [] {
      assert forall x | x in s[1..] :: x in pool - {s[0]};
      Pigeonhole(s[1..], pool - {s[0]});
    }
  }

  lemma SubsetSize(a: set<nat>, b: set<nat>)
    requires a <= b
    ensures |a| <= |b|
  {
    assert b == a + (b - a);
  }

  /** More elements than places: one of them repeats. */
  lemma RepeatExists<T>(s: seq<T>, pool: set<T>)
    requires |s| > |pool|
    requires forall x | x in s :: x in pool
    ensures exists i, j :: 0 <= i < j < |s| && s[i] == s[j]
  {
    if NoRepeats(s) {
      Pigeonhole(s, pool);
    }
  }

  lemma {:induction false} FindLeast(s: set<Instant>) returns (m: Instant)
    requires s != {}
    ensures m in s && forall x | x in s :: m <= x
  {
    var any :| any in s;
    var rest := s - {any};
    assert forall x | x in s :: x == any || x in rest;
    m := any;
    if rest != {} {
      var other := FindLeast(rest);
      m := if other < any then other else any;
    }
  }

  ghost function Least(s: set<Instant>): (m: Instant)
    requires s != {}
    ensures m in s && forall x | x in s :: m <= x
  {
    assert exists m :: m in s && forall x | x in s :: m <= x by {
      var m := FindLeast(s);
    }
    var m :| m in s && forall x | x in s :: m <= x;
    m
  }

  /** The minimum of a set of instants, or nothing when the set is empty. */
  ghost function Earliest(s: set<Instant>): Option<Instant> {
    if s == {} then None else Some(Least(s))
  }
}
