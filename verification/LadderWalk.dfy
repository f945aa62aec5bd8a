/** The climb of the ladder on its own: movers standing at indices of a horizon,
    taking later ones (apps/calendar/services.py, prioritize). */
module LadderWalk {
  import opened Common
  import opened QueueModel

  // ----- every climb -----

  lemma WalkStep(h: seq<Instant>, avoid: set<Instant>, at: map<nat, nat>, order: seq<nat>, n: nat)
    requires n < |order| && order[n] in at && at[order[n]] < |h|
    ensures var before, after := Walk(h, avoid, at, order[..n]), Walk(h, avoid, at, order[..n + 1]);
            if before.None? then after.None?
            else
              var j := FirstOpen(h, at[order[n]] + 1, HandedOut(before.value), avoid);
              after == if j == |h| then None else Some(before.value[order[n] := j])
  {
    assert order[..n + 1][..n] == order[..n];
  }

  /** A climb that fails goes on failing. */
  lemma {:induction false} WalkPrefix(h: seq<Instant>, avoid: set<Instant>, at: map<nat, nat>, order: seq<nat>, n: nat)
    requires n <= |order| && Walk(h, avoid, at, order).Some?
    ensures Walk(h, avoid, at, order[..n]).Some?
  {
    if n == |order| {
      assert order[..n] == order;
    } else {
      var m := |order| - 1;
      WalkPrefix(h, avoid, at, order[..m], n);
      assert order[..m][..n] == order[..n];
    }
  }

  /** Each mover has an index after its own that need not be avoided, and no two have the same. */
  ghost predicate Climbed(h: seq<Instant>, avoid: set<Instant>, at: map<nat, nat>, w: map<nat, nat>) {
    (forall p | p in w :: p in at && at[p] < w[p] < |h| && h[w[p]] !in avoid)
    && (forall p, r | p in w && r in w && w[p] == w[r] :: p == r)
  }

  lemma ClimbedMore(h: seq<Instant>, avoid: set<Instant>, at: map<nat, nat>, w: map<nat, nat>, p: nat, j: nat)
    requires Climbed(h, avoid, at, w) && p in at && at[p] < j < |h| && h[j] !in avoid && j !in HandedOut(w)
    ensures Climbed(h, avoid, at, w[p := j])
  {
  }

  lemma ElemsMore(order: seq<nat>)
    requires order != []
    ensures Elems(order) == Elems(order[..|order| - 1]) + {order[|order| - 1]}
  {
    assert order == order[..|order| - 1] + [order[|order| - 1]];
  }

  lemma WalkLast(h: seq<Instant>, avoid: set<Instant>, at: map<nat, nat>, order: seq<nat>)
    requires order != [] && Walk(h, avoid, at, order).Some?
    ensures var n := |order| - 1;
            Walk(h, avoid, at, order[..n]).Some? && order[n] in at && at[order[n]] < |h|
            && var w := Walk(h, avoid, at, order[..n]).value;
            var j := FirstOpen(h, at[order[n]] + 1, HandedOut(w), avoid);
            at[order[n]] < j < |h| && h[j] !in avoid && j !in HandedOut(w) && Walk(h, avoid, at, order).value == w[order[n] := j]
  {
    hide HandedOut;
  }

  lemma {:induction false} WalkFacts(h: seq<Instant>, avoid: set<Instant>, at: map<nat, nat>, order: seq<nat>)
    requires Walk(h, avoid, at, order).Some?
    ensures Walk(h, avoid, at, order).value.Keys == Elems(order)
    ensures Climbed(h, avoid, at, Walk(h, avoid, at, order).value)
  {
    if order != [] {
      hide *;
      WalkLast(h, avoid, at, order);
      WalkFacts(h, avoid, at, order[..|order| - 1]);
      ElemsMore(order);
      var p := order[|order| - 1];
      OneClimbs(h, avoid, at, Walk(h, avoid, at, order[..|order| - 1]).value, p);
    }
  }

  lemma OneClimbs(h: seq<Instant>, avoid: set<Instant>, at: map<nat, nat>, w: map<nat, nat>, p: nat)
    requires Climbed(h, avoid, at, w) && p in at && at[p] < |h| && FirstOpen(h, at[p] + 1, HandedOut(w), avoid) < |h|
    ensures var after := w[p := FirstOpen(h, at[p] + 1, HandedOut(w), avoid)];
            Climbed(h, avoid, at, after) && after.Keys == w.Keys + {p}
  {
    hide *;
    var j := FirstOpen(h, at[p] + 1, HandedOut(w), avoid);
    ClimbedMore(h, avoid, at, w, p, j);
    KeysWith(w, p, j);
  }

  lemma KeysWith(w: map<nat, nat>, p: nat, j: nat)
    ensures w[p := j].Keys == w.Keys + {p}
  {
  }

  // ----- movers on one slot -----

  /** The more is handed out, the later the first open index. */
  lemma {:induction false} FirstOpenLater(h: seq<Instant>, j: nat, less: set<nat>, more: set<nat>, avoid: set<Instant>)
    requires j <= |h| && less <= more
    ensures FirstOpen(h, j, less, avoid) <= FirstOpen(h, j, more, avoid)
    decreases |h| - j
  {
    if j < |h| && (j in more || h[j] in avoid) {
      FirstOpenLater(h, j + 1, less, more, avoid);
    }
  }

  /** The rung at place `k`: the mover's own new index is added to what was handed out. */
  lemma RungTaken(h: seq<Instant>, avoid: set<Instant>, at: map<nat, nat>, order: seq<nat>, k: nat)
    requires k < |order| && NoRepeats(order) && Walk(h, avoid, at, order[..k + 1]).Some?
    ensures Walk(h, avoid, at, order[..k]).Some? && order[k] in at && at[order[k]] < |h|
    ensures var w := Walk(h, avoid, at, order[..k]).value;
            var j := FirstOpen(h, at[order[k]] + 1, HandedOut(w), avoid);
            order[k] !in w && j !in HandedOut(w) && Walk(h, avoid, at, order[..k + 1]).value == w[order[k] := j]
  {
    var first := order[..k + 1];
    assert first[..k] == order[..k] && first[k] == order[k] && |first| - 1 == k;
    hide *;
    WalkLast(h, avoid, at, first);
    NotYetWalked(h, avoid, at, order, k);
  }

  lemma HandedMore(w: map<nat, nat>, p: nat, j: nat)
    requires p !in w
    ensures HandedOut(w) <= HandedOut(w[p := j]) && j in HandedOut(w[p := j])
  {
    var more := w[p := j];
    assert more[p] == j && forall x | x in w :: x in more && more[x] == w[x];
  }

  /** What was handed out stays handed out. */
  lemma {:induction false} WalkGrows(h: seq<Instant>, avoid: set<Instant>, at: map<nat, nat>, order: seq<nat>, m: nat, n: nat)
    requires m <= n <= |order| && NoRepeats(order) && Walk(h, avoid, at, order[..n]).Some?
    ensures Walk(h, avoid, at, order[..m]).Some?
    ensures var before, after := Walk(h, avoid, at, order[..m]).value, Walk(h, avoid, at, order[..n]).value;
            HandedOut(before) <= HandedOut(after) && forall p | p in before :: p in after && after[p] == before[p]
    decreases n
  {
    hide *;
    if m < n {
      var k := n - 1;
      RungTaken(h, avoid, at, order, k);
      WalkGrows(h, avoid, at, order, m, k);
      var w := Walk(h, avoid, at, order[..k]).value;
      HandedMore(w, order[k], FirstOpen(h, at[order[k]] + 1, HandedOut(w), avoid));
    }
  }

  lemma NotYetWalked(h: seq<Instant>, avoid: set<Instant>, at: map<nat, nat>, order: seq<nat>, k: nat)
    requires k < |order| && NoRepeats(order) && Walk(h, avoid, at, order[..k]).Some?
    ensures order[k] !in Walk(h, avoid, at, order[..k]).value
  {
    WalkFacts(h, avoid, at, order[..k]);
    hide Walk, Climbed;
    assert order[k] !in Elems(order[..k]);
  }

  /** Where the mover at place `k` ends, and that from then on its index counts as handed out. */
  lemma EndsAt(h: seq<Instant>, avoid: set<Instant>, at: map<nat, nat>, order: seq<nat>, k: nat, n: nat)
    requires k < n <= |order| && NoRepeats(order) && Walk(h, avoid, at, order[..n]).Some?
    ensures Walk(h, avoid, at, order[..k]).Some? && Walk(h, avoid, at, order[..k + 1]).Some?
    ensures order[k] in at && at[order[k]] < |h|
    ensures var w, j := Walk(h, avoid, at, order[..n]).value, RungAt(h, avoid, at, order, k);
            order[k] in w && w[order[k]] == j && j in HandedOut(w)
  {
    hide Walk, FirstOpen, HandedOut;
    WalkGrows(h, avoid, at, order, k + 1, n);
    RungTaken(h, avoid, at, order, k);
    HandedMore(Walk(h, avoid, at, order[..k]).value, order[k], RungAt(h, avoid, at, order, k));
  }

  /** The index that the mover at place `k` takes. */
  ghost function RungAt(h: seq<Instant>, avoid: set<Instant>, at: map<nat, nat>, order: seq<nat>, k: nat): nat
    requires k < |order| && Walk(h, avoid, at, order[..k]).Some? && order[k] in at && at[order[k]] < |h|
  {
    FirstOpen(h, at[order[k]] + 1, HandedOut(Walk(h, avoid, at, order[..k]).value), avoid)
  }

  lemma RungsRise(h: seq<Instant>, avoid: set<Instant>, at: map<nat, nat>, order: seq<nat>, i: nat, j: nat)
    requires i < j < |order| && NoRepeats(order) && Walk(h, avoid, at, order[..j + 1]).Some?
    requires Walk(h, avoid, at, order[..i]).Some? && Walk(h, avoid, at, order[..j]).Some?
    requires order[i] in at && order[j] in at && at[order[i]] == at[order[j]] < |h|
    ensures RungAt(h, avoid, at, order, i) <= RungAt(h, avoid, at, order, j)
    ensures RungAt(h, avoid, at, order, j) !in HandedOut(Walk(h, avoid, at, order[..j]).value)
  {
    hide Walk, FirstOpen, HandedOut;
    WalkGrows(h, avoid, at, order, i, j);
    RungTaken(h, avoid, at, order, j);
    FirstOpenLater(h, at[order[i]] + 1, HandedOut(Walk(h, avoid, at, order[..i]).value),
                   HandedOut(Walk(h, avoid, at, order[..j]).value), avoid);
  }

  /** Of two movers on one slot the one climbed first ends lower. */
  lemma FirstEndsLower(h: seq<Instant>, avoid: set<Instant>, at: map<nat, nat>, order: seq<nat>, i: nat, j: nat)
    requires i < j < |order| && NoRepeats(order) && Walk(h, avoid, at, order).Some?
    requires order[i] in at && order[j] in at && at[order[i]] == at[order[j]]
    ensures var w := Walk(h, avoid, at, order).value;
            order[i] in w && order[j] in w && w[order[i]] < w[order[j]]
  {
    hide *;
    assert order[..|order|] == order;
    EndsAt(h, avoid, at, order, i, |order|);
    EndsAt(h, avoid, at, order, j, |order|);
    EndsAt(h, avoid, at, order, i, j);
    RungsRise(h, avoid, at, order, i, j);
  }

  /** The movers at an index or above it. */
  ghost function AtOrAbove(at: map<nat, nat>, c: nat): set<nat> {
    set p | p in at && at[p] >= c
  }

  /** The indices above one that need not be avoided. */
  ghost function OpenAbove(h: seq<Instant>, avoid: set<Instant>, c: nat): set<nat> {
    set j: nat | c < j < |h| && h[j] !in avoid
  }

  /** For each mover there are as many open indices above it as movers at it or above it. */
  ghost predicate Room(h: seq<Instant>, avoid: set<Instant>, at: map<nat, nat>) {
    forall p | p in at :: |AtOrAbove(at, at[p])| <= |OpenAbove(h, avoid, at[p])|
  }

  ghost function Image(w: map<nat, nat>, s: set<nat>): set<nat>
    requires s <= w.Keys
  {
    set p | p in s :: w[p]
  }

  lemma {:induction false} ImageSize(w: map<nat, nat>, s: set<nat>)
    requires s <= w.Keys
    ensures |Image(w, s)| <= |s|
    ensures (forall p, r | p in s && r in s && w[p] == w[r] :: p == r) ==> |Image(w, s)| == |s|
    decreases |s|
  {
    if s == {} {
      assert Image(w, s) == {};
    } else {
      var p :| p in s;
      ImageSize(w, s - {p});
      assert Image(w, s) == Image(w, s - {p}) + {w[p]};
    }
  }

  lemma ClimbedHasRoom(h: seq<Instant>, avoid: set<Instant>, at: map<nat, nat>, w: map<nat, nat>)
    requires Climbed(h, avoid, at, w) && w.Keys == at.Keys
    ensures Room(h, avoid, at)
  {
    forall p | p in at ensures |AtOrAbove(at, at[p])| <= |OpenAbove(h, avoid, at[p])| {
      var who := AtOrAbove(at, at[p]);
      ImageSize(w, who);
      SubsetSize(Image(w, who), OpenAbove(h, avoid, at[p]));
    }
  }

  lemma NoneOpen(h: seq<Instant>, avoid: set<Instant>, c: nat, w: map<nat, nat>)
    requires c < |h| && FirstOpen(h, c + 1, HandedOut(w), avoid) == |h|
    ensures |OpenAbove(h, avoid, c)| <= |w|
  {
    forall j | j in OpenAbove(h, avoid, c) ensures j in Image(w, w.Keys) {
      assert j in HandedOut(w);
    }
    ImageSize(w, w.Keys);
    SubsetSize(OpenAbove(h, avoid, c), Image(w, w.Keys));
    KeyCount(w);
  }

  lemma {:induction false} KeyCount(w: map<nat, nat>)
    ensures |w.Keys| == |w|
  {
  }

  lemma EarlierAreAbove(at: map<nat, nat>, rank: map<nat, nat>, order: seq<nat>, n: nat)
    requires Descending(at, rank, order) && n < |order|
    ensures order[n] in at && Elems(order[..n + 1]) <= AtOrAbove(at, at[order[n]])
  {
    assert order[n] in order;
    forall p | p in order[..n + 1] ensures p in AtOrAbove(at, at[order[n]]) {
      var i :| 0 <= i < n + 1 && order[..n + 1][i] == p;
      assert order[i] == p && p in order;
      if i < n { assert Above(at, rank, order[i], order[n]); }
    }
  }

  lemma {:induction false} DistinctSize(s: seq<nat>)
    requires NoRepeats(s)
    ensures |Elems(s)| == |s|
  {
    if s == [] {
      assert Elems(s) == {};
    } else {
      DistinctSize(s[1..]);
      assert Elems(s) == {s[0]} + Elems(s[1..]);
      assert s[0] !in s[1..];
    }
  }

  lemma OrderSize(at: map<nat, nat>, rank: map<nat, nat>, order: seq<nat>, n: nat)
    requires Descending(at, rank, order) && n <= |order|
    ensures |Elems(order[..n])| == n
  {
    DistinctSize(order[..n]);
  }

  /** Where a climb first gets stuck there is no room. */
  lemma StuckMeansNoRoom(h: seq<Instant>, avoid: set<Instant>, at: map<nat, nat>, rank: map<nat, nat>, order: seq<nat>, n: nat)
    requires Descending(at, rank, order) && n < |order| && (forall p | p in at :: at[p] < |h|)
    requires Walk(h, avoid, at, order[..n]).Some? && Walk(h, avoid, at, order[..n + 1]).None?
    ensures !Room(h, avoid, at)
  {
    var p := order[n];
    EarlierAreAbove(at, rank, order, n);
    WalkStep(h, avoid, at, order, n);
    WalkFacts(h, avoid, at, order[..n]);
    var w := Walk(h, avoid, at, order[..n]).value;
    hide Walk, FirstOpen, HandedOut, Climbed;
    NoneOpen(h, avoid, at[p], w);
    OrderSize(at, rank, order, n);
    OrderSize(at, rank, order, n + 1);
    KeyCount(w);
    hide Descending;
    SubsetSize(Elems(order[..n + 1]), AtOrAbove(at, at[p]));
  }

  lemma {:induction false} RoomIsEnough(h: seq<Instant>, avoid: set<Instant>, at: map<nat, nat>, rank: map<nat, nat>,
                                       order: seq<nat>, n: nat)
    requires Descending(at, rank, order) && n <= |order| && (forall p | p in at :: at[p] < |h|) && Room(h, avoid, at)
    ensures Walk(h, avoid, at, order[..n]).Some?
  {
    if n == 0 {
      assert order[..0] == [];
    } else {
      RoomIsEnough(h, avoid, at, rank, order, n - 1);
      if Walk(h, avoid, at, order[..n]).None? {
        StuckMeansNoRoom(h, avoid, at, rank, order, n - 1);
      }
    }
  }

  /** The climb succeeds exactly when there is room, whichever order movers on one
      slot are taken in. */
  lemma WalkFitsIff(h: seq<Instant>, avoid: set<Instant>, at: map<nat, nat>, rank: map<nat, nat>, order: seq<nat>)
    requires Descending(at, rank, order) && forall p | p in at :: at[p] < |h|
    ensures Walk(h, avoid, at, order).Some? <==> Room(h, avoid, at)
  {
    assert order[..|order|] == order;
    if Room(h, avoid, at) {
      RoomIsEnough(h, avoid, at, rank, order, |order|);
    } else if Walk(h, avoid, at, order).Some? {
      WalkFacts(h, avoid, at, order);
      assert forall p :: p in Elems(order) <==> p in at;
      ClimbedHasRoom(h, avoid, at, Walk(h, avoid, at, order).value);
    }
  }

  // ----- movers on distinct slots, none of which others hold -----

  /** The first index after `c` that need not be avoided; `|h|` if none. */
  function Rung(h: seq<Instant>, avoid: set<Instant>, c: nat): (k: nat)
    requires c < |h|
    ensures c < k <= |h|
  {
    FirstOpen(h, c + 1, {}, avoid)
  }

  /** Movers at distinct indices that need not be avoided. */
  ghost predicate Clean(h: seq<Instant>, avoid: set<Instant>, at: map<nat, nat>) {
    (forall p | p in at :: at[p] < |h| && h[at[p]] !in avoid)
    && (forall p, r | p in at && r in at && at[p] == at[r] :: p == r)
  }

  lemma RungBelow(h: seq<Instant>, avoid: set<Instant>, low: nat, high: nat)
    requires low < high < |h| && h[high] !in avoid
    ensures Rung(h, avoid, low) <= high < Rung(h, avoid, high)
  {
  }

  lemma {:induction false} FirstOpenAgree(h: seq<Instant>, j: nat, taken: set<nat>, avoid: set<Instant>)
    requires j <= |h|
    requires forall i | i in taken :: i < j || i > FirstOpen(h, j, {}, avoid)
    ensures FirstOpen(h, j, taken, avoid) == FirstOpen(h, j, {}, avoid)
    decreases |h| - j
  {
    if j < |h| && h[j] in avoid {
      FirstOpenAgree(h, j + 1, taken, avoid);
    }
  }

  /** The movers climbed so far are on their own rungs. */
  ghost predicate OnRungs(h: seq<Instant>, avoid: set<Instant>, at: map<nat, nat>, w: map<nat, nat>) {
    forall p | p in w :: p in at && at[p] < |h| && w[p] == Rung(h, avoid, at[p])
  }

  /** Working downwards, indices handed out already never stand in the way: the
      search that skips them finds the mover's own rung. */
  lemma TakenIrrelevant(h: seq<Instant>, avoid: set<Instant>, at: map<nat, nat>, w: map<nat, nat>, p: nat)
    requires Clean(h, avoid, at) && OnRungs(h, avoid, at, w) && p in at && forall r | r in w :: at[p] < at[r]
    ensures FirstOpen(h, at[p] + 1, HandedOut(w), avoid) == Rung(h, avoid, at[p])
  {
    hide FirstOpen;
    forall k | k in HandedOut(w) ensures k < at[p] + 1 || k > Rung(h, avoid, at[p]) {
      if k != 0 {
        var r :| r in w && w[r] == k;
        RungBelow(h, avoid, at[p], at[r]);
      }
    }
    FirstOpenAgree(h, at[p] + 1, HandedOut(w), avoid);
  }

  lemma ClimbedHigher(h: seq<Instant>, avoid: set<Instant>, at: map<nat, nat>, rank: map<nat, nat>, order: seq<nat>, n: nat)
    requires Clean(h, avoid, at) && Descending(at, rank, order) && n < |order|
    ensures order[n] in at && at[order[n]] < |h| && forall r | r in order[..n] :: r in at && at[order[n]] < at[r]
  {
    assert order[n] in order;
    forall r | r in order[..n] ensures r in at && at[order[n]] < at[r] {
      var i :| 0 <= i < n && order[..n][i] == r;
      assert order[i] == r && r in order && Above(at, rank, order[i], order[n]);
    }
  }

  /** The first `n` movers of the order have rungs to climb to. */
  ghost predicate HaveRungs(h: seq<Instant>, avoid: set<Instant>, at: map<nat, nat>, order: seq<nat>, n: nat)
    requires n <= |order|
  {
    forall i | 0 <= i < n :: order[i] in at && at[order[i]] < |h| && Rung(h, avoid, at[order[i]]) < |h|
  }

  lemma CleanStep(h: seq<Instant>, avoid: set<Instant>, at: map<nat, nat>, rank: map<nat, nat>, order: seq<nat>, m: nat)
    requires Clean(h, avoid, at) && Descending(at, rank, order) && m < |order|
    requires Walk(h, avoid, at, order[..m]).Some? && OnRungs(h, avoid, at, Walk(h, avoid, at, order[..m]).value)
    ensures order[m] in at && at[order[m]] < |h|
    ensures var k := Rung(h, avoid, at[order[m]]);
            Walk(h, avoid, at, order[..m + 1])
            == if k == |h| then None else Some(Walk(h, avoid, at, order[..m]).value[order[m] := k])
  {
    hide *;
    ClimbedHigher(h, avoid, at, rank, order, m);
    WalkedBefore(h, avoid, at, order, m);
    WalkStep(h, avoid, at, order, m);
    TakenIrrelevant(h, avoid, at, Walk(h, avoid, at, order[..m]).value, order[m]);
  }

  lemma WalkedBefore(h: seq<Instant>, avoid: set<Instant>, at: map<nat, nat>, order: seq<nat>, m: nat)
    requires m <= |order| && Walk(h, avoid, at, order[..m]).Some?
    ensures forall r | r in Walk(h, avoid, at, order[..m]).value :: r in order[..m]
  {
    WalkFacts(h, avoid, at, order[..m]);
    hide Walk, Climbed;
  }

  lemma OnRungsMore(h: seq<Instant>, avoid: set<Instant>, at: map<nat, nat>, w: map<nat, nat>, p: nat)
    requires OnRungs(h, avoid, at, w) && p in at && at[p] < |h|
    ensures OnRungs(h, avoid, at, w[p := Rung(h, avoid, at[p])])
  {
    hide Rung;
  }

  /** Movers on distinct slots that nobody immovable holds climb each to the first
      slot after its own that is not to be avoided, as if alone. */
  lemma {:induction false} CleanWalk(h: seq<Instant>, avoid: set<Instant>, at: map<nat, nat>, rank: map<nat, nat>,
                                     order: seq<nat>, n: nat)
    requires Clean(h, avoid, at) && Descending(at, rank, order) && n <= |order|
    ensures Walk(h, avoid, at, order[..n]).Some? <==> HaveRungs(h, avoid, at, order, n)
    ensures Walk(h, avoid, at, order[..n]).Some? ==> OnRungs(h, avoid, at, Walk(h, avoid, at, order[..n]).value)
  {
    if n == 0 {
      assert order[..0] == [];
    } else {
      var m := n - 1;
      hide *;
      CleanWalk(h, avoid, at, rank, order, m);
      ClimbedHigher(h, avoid, at, rank, order, m);
      HaveRungsMore(h, avoid, at, order, m);
      if Walk(h, avoid, at, order[..m]).Some? {
        CleanStep(h, avoid, at, rank, order, m);
        OnRungsMore(h, avoid, at, Walk(h, avoid, at, order[..m]).value, order[m]);
      } else {
        StaysStuck(h, avoid, at, order, m);
      }
    }
  }

  lemma HaveRungsMore(h: seq<Instant>, avoid: set<Instant>, at: map<nat, nat>, order: seq<nat>, m: nat)
    requires m < |order| && order[m] in at && at[order[m]] < |h|
    ensures HaveRungs(h, avoid, at, order, m + 1) <==> HaveRungs(h, avoid, at, order, m) && Rung(h, avoid, at[order[m]]) < |h|
  {
    hide Rung;
  }

  lemma StaysStuck(h: seq<Instant>, avoid: set<Instant>, at: map<nat, nat>, order: seq<nat>, m: nat)
    requires m < |order| && Walk(h, avoid, at, order[..m]).None?
    ensures Walk(h, avoid, at, order[..m + 1]).None?
  {
    assert order[..m + 1][..m] == order[..m];
  }

  /** Only the first mover climbed, the topmost, can fail. */
  lemma OnlyTopmostFails(h: seq<Instant>, avoid: set<Instant>, at: map<nat, nat>, rank: map<nat, nat>, order: seq<nat>, n: nat)
    requires Clean(h, avoid, at) && Descending(at, rank, order) && 0 < n < |order|
    requires Walk(h, avoid, at, order[..n]).Some?
    ensures Walk(h, avoid, at, order[..n + 1]).Some?
  {
    assert order[..n][0] == order[0];
    assert order[0] in order && h[at[order[0]]] !in avoid;
    hide *;
    CleanWalk(h, avoid, at, rank, order, n);
    CleanWalk(h, avoid, at, rank, order, n + 1);
    ClimbedHigher(h, avoid, at, rank, order, n);
    HaveRungsMore(h, avoid, at, order, n);
    RungBelow(h, avoid, at[order[n]], at[order[0]]);
  }
}
