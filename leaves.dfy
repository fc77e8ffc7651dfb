/** Falling leaves: a controller that, while playing, spawns leaves at a steady
    rate up to a cap and prunes leaves that were destroyed elsewhere or fell
    below the despawn height, and a fade-out component that makes a leaf
    transparent and destroys it. A destroyed leaf is one whose `alive` flag is
    down; a leaf is destroyed only while it is alive, so no path destroys a
    leaf twice. */
module Leaves {
  import opened Tween

  /** A leaf object. Only its height is modelled; the sideways sway and the
      rotation are left out. */
  class Leaf {
    const fallSpeed: real
    /** Whether the leaf's renderer has a material (always so for spawned
        leaves). */
    const hasMaterial: bool
    var y: real
    var alive: bool

    constructor (y: real, fallSpeed: real, hasMaterial: bool)
      ensures this.y == y && this.fallSpeed == fallSpeed && this.hasMaterial == hasMaterial && alive
    {
      this.y := y;
      this.fallSpeed := fallSpeed;
      this.hasMaterial := hasMaterial;
      alive := true;
    }

    /** The motion component's frame: the leaf moves down by its fall speed for
        `dt` seconds; a destroyed leaf no longer moves. */
    method Fall(dt: real)
      requires dt >= 0.0
      modifies this
      ensures alive == old(alive)
      ensures y == if old(alive) then old(y) - fallSpeed * dt else old(y)
    {
      if alive {
        y := y - fallSpeed * dt;
      }
    }

    /** Destroys the leaf; only a leaf that still exists can be destroyed. */
    method Destroy()
      requires alive
      modifies this
      ensures !alive && y == old(y)
    {
      alive := false;
    }
  }

  /** Whether per-frame pruning keeps a leaf: it still exists and has not fallen
      below the despawn height. */
  predicate Keeps(l: Leaf, despawnHeight: real)
    reads l
  {
    l.alive && !(l.y < despawnHeight)
  }

  /** The leaves per-frame pruning keeps, in their order. */
  function Survivors(s: seq<Leaf>, despawnHeight: real): (r: seq<Leaf>)
    reads s
    ensures |r| <= |s|
  {
    if s == [] then []
    else (if Keeps(s[0], despawnHeight) then [s[0]] else []) + Survivors(s[1..], despawnHeight)
  }

  /** The leaves that still exist, in their order. */
  function Existing(s: seq<Leaf>): (r: seq<Leaf>)
    reads s
    ensures |r| <= |s|
  {
    if s == [] then []
    else (if s[0].alive then [s[0]] else []) + Existing(s[1..])
  }

  /** Pruning keeps exactly the leaves that still exist and are not below the
      despawn height. */
  lemma {:induction false} SurvivorsMembers(s: seq<Leaf>, despawnHeight: real)
    ensures forall l :: l in Survivors(s, despawnHeight) <==> l in s && Keeps(l, despawnHeight)
  {
    if s != [] {
      SurvivorsMembers(s[1..], despawnHeight);
      assert s == [s[0]] + s[1..];
    }
  }

  /** Dropping destroyed leaves keeps exactly the leaves that still exist. */
  lemma {:induction false} ExistingMembers(s: seq<Leaf>)
    ensures forall l :: l in Existing(s) <==> l in s && l.alive
  {
    if s != [] {
      ExistingMembers(s[1..]);
      assert s == [s[0]] + s[1..];
    }
  }

  /** Pruning works piecewise, so the survivors keep their relative order. */
  lemma {:induction false} SurvivorsAppend(a: seq<Leaf>, b: seq<Leaf>, despawnHeight: real)
    ensures Survivors(a + b, despawnHeight) == Survivors(a, despawnHeight) + Survivors(b, despawnHeight)
  {
    if a == [] {
      assert a + b == b;
    } else {
      assert (a + b)[1..] == a[1..] + b;
      SurvivorsAppend(a[1..], b, despawnHeight);
    }
  }

  /** Dropping destroyed leaves works piecewise, so the rest keep their order. */
  lemma {:induction false} ExistingAppend(a: seq<Leaf>, b: seq<Leaf>)
    ensures Existing(a + b) == Existing(a) + Existing(b)
  {
    if a == [] {
      assert a + b == b;
    } else {
      assert (a + b)[1..] == a[1..] + b;
      ExistingAppend(a[1..], b);
    }
  }

  /** Growing a prefix by one entry adds that entry to the existing leaves
      exactly when it still exists. */
  lemma ExistingSnoc(s: seq<Leaf>, i: nat)
    requires i < |s|
    ensures Existing(s[..i + 1]) == Existing(s[..i]) + (if s[i].alive then [s[i]] else [])
  {
    assert s[..i + 1] == s[..i] + [s[i]];
    ExistingAppend(s[..i], [s[i]]);
    assert [s[i]][1..] == [];
  }

  /** Dropping destroyed leaves a second time changes nothing, so cleanups that
      come due together act as one. */
  lemma {:induction false} ExistingIdempotent(s: seq<Leaf>)
    ensures Existing(Existing(s)) == Existing(s)
  {
    if s != [] {
      ExistingIdempotent(s[1..]);
      if s[0].alive {
        var t := Existing(s[1..]);
        var u := [s[0]] + t;
        assert Existing(s) == u;
        assert u[0] == s[0] && u[1..] == t;
        assert Existing(u) == [s[0]] + Existing(t);
      } else {
        assert Existing(s) == Existing(s[1..]);
      }
    }
  }

  /** Pruning a second time in the same frame changes nothing. */
  lemma {:induction false} SurvivorsIdempotent(s: seq<Leaf>, despawnHeight: real)
    ensures Survivors(Survivors(s, despawnHeight), despawnHeight) == Survivors(s, despawnHeight)
  {
    if s != [] {
      SurvivorsIdempotent(s[1..], despawnHeight);
      if Keeps(s[0], despawnHeight) {
        var t := Survivors(s[1..], despawnHeight);
        var u := [s[0]] + t;
        assert Survivors(s, despawnHeight) == u;
        assert u[0] == s[0] && u[1..] == t;
        assert Survivors(u, despawnHeight) == [s[0]] + Survivors(t, despawnHeight);
      } else {
        assert Survivors(s, despawnHeight) == Survivors(s[1..], despawnHeight);
      }
    }
  }

  /** In a list of distinct leaves the first is not among the rest. */
  lemma HeadNotInTail(s: seq<Leaf>)
    requires s != []
    requires Distinct(s)
    ensures s[0] !in s[1..]
  {
    forall k | 0 <= k < |s[1..]|
      ensures s[1..][k] != s[0]
    {
      assert s[1..][k] == s[k + 1];
    }
  }

  /** No leaf appears twice. */
  predicate Distinct(s: seq<Leaf>)
  {
    forall i, j :: 0 <= i < j < |s| ==> s[i] != s[j]
  }

  /** Pruning a list of distinct leaves keeps them distinct. */
  lemma {:induction false} SurvivorsDistinct(s: seq<Leaf>, despawnHeight: real)
    requires Distinct(s)
    ensures Distinct(Survivors(s, despawnHeight))
  {
    if s != [] {
      assert Distinct(s[1..]) by {
        forall i, j | 0 <= i < j < |s[1..]|
          ensures s[1..][i] != s[1..][j]
        {
          assert s[1..][i] == s[i + 1] && s[1..][j] == s[j + 1];
        }
      }
      SurvivorsDistinct(s[1..], despawnHeight);
      var t := Survivors(s[1..], despawnHeight);
      if Keeps(s[0], despawnHeight) {
        HeadNotInTail(s);
        SurvivorsMembers(s[1..], despawnHeight);
        ConsDistinct(s[0], t);
        assert Survivors(s, despawnHeight) == [s[0]] + t;
      } else {
        assert Survivors(s, despawnHeight) == t;
      }
    }
  }

  /** Dropping destroyed leaves from a list of distinct leaves keeps them
      distinct. */
  lemma {:induction false} ExistingDistinct(s: seq<Leaf>)
    requires Distinct(s)
    ensures Distinct(Existing(s))
  {
    if s != [] {
      assert Distinct(s[1..]) by {
        forall i, j | 0 <= i < j < |s[1..]|
          ensures s[1..][i] != s[1..][j]
        {
          assert s[1..][i] == s[i + 1] && s[1..][j] == s[j + 1];
        }
      }
      ExistingDistinct(s[1..]);
      var t := Existing(s[1..]);
      if s[0].alive {
        HeadNotInTail(s);
        ExistingMembers(s[1..]);
        ConsDistinct(s[0], t);
        assert Existing(s) == [s[0]] + t;
      } else {
        assert Existing(s) == t;
      }
    }
  }

  /** The leaves whose flag is set, in their order. */
  function Select(s: seq<Leaf>, keep: seq<bool>): (r: seq<Leaf>)
    requires |keep| == |s|
    ensures |r| <= |s|
  {
    if s == [] then [] else (if keep[0] then [s[0]] else []) + Select(s[1..], keep[1..])
  }

  /** Whether pruning keeps each leaf, as of now. */
  function KeepFlags(s: seq<Leaf>, despawnHeight: real): (r: seq<bool>)
    reads s
    ensures |r| == |s|
    ensures forall j :: 0 <= j < |s| ==> r[j] == Keeps(s[j], despawnHeight)
  {
    if s == [] then [] else [Keeps(s[0], despawnHeight)] + KeepFlags(s[1..], despawnHeight)
  }

  /** Pruning is selection by the leaves' keep flags of the moment. */
  lemma {:induction false} SurvivorsIsSelect(s: seq<Leaf>, despawnHeight: real)
    ensures Survivors(s, despawnHeight) == Select(s, KeepFlags(s, despawnHeight))
  {
    if s != [] {
      SurvivorsIsSelect(s[1..], despawnHeight);
      assert KeepFlags(s, despawnHeight)[1..] == KeepFlags(s[1..], despawnHeight);
    }
  }

  /** The parts of a list split around one position. */
  lemma SplitAt(p: seq<Leaf>, x: Leaf, r: seq<Leaf>)
    ensures var s := p + [x] + r; s[..|p|] == p && s[|p|] == x && s[|p| + 1..] == r
  {
    var s := p + [x] + r;
    assert s[..|p|] == p;
    assert s[|p| + 1..] == r;
  }

  /** A leaf put in front of distinct leaves it is not among gives distinct
      leaves. */
  lemma ConsDistinct(x: Leaf, t: seq<Leaf>)
    requires x !in t
    requires Distinct(t)
    ensures Distinct([x] + t)
  {
    var r := [x] + t;
    forall i, j | 0 <= i < j < |r|
      ensures r[i] != r[j]
    {
      assert r[j] == t[j - 1];
      if i > 0 {
        assert r[i] == t[i - 1];
      }
    }
  }

  /** The fade's progress: elapsed time over duration, clamped to [0, 1]. A
      zero duration counts as complete once any time has passed; a negative
      one never progresses. */
  function FadeProgress(elapsed: real, duration: real): (r: real)
    ensures 0.0 <= r <= 1.0
  {
    if duration > 0.0 then Clamp01(elapsed / duration)
    else if duration == 0.0 && elapsed > 0.0 then 1.0
    else 0.0
  }

  /** With a positive duration the fade is complete exactly once the elapsed
      time reaches the duration. */
  lemma FadeCompleteWhenDurationPassed(elapsed: real, duration: real)
    requires duration > 0.0
    ensures FadeProgress(elapsed, duration) >= 1.0 <==> elapsed >= duration
  {
    if elapsed >= duration {
      assert elapsed / duration >= duration / duration;
    } else {
      assert elapsed / duration < 1.0 by {
        assert elapsed / duration * duration == elapsed;
      }
    }
  }

  /** The fade-out component attached to one leaf: the leaf's alpha goes from 1 to
      0 over the duration, after which the leaf is destroyed; a leaf without a
      material is destroyed on the component's first frame. */
  class LeafFadeOut {
    const leaf: Leaf
    const duration: real
    var elapsed: real
    var alpha: real

    ghost predicate Valid()
      reads this
    {
      0.0 <= alpha <= 1.0 && elapsed >= 0.0
    }

    constructor (leaf: Leaf, duration: real)
      ensures Valid() && this.leaf == leaf && this.duration == duration
      ensures elapsed == 0.0 && alpha == 1.0
    {
      this.leaf := leaf;
      this.duration := duration;
      elapsed := 0.0;
      alpha := 1.0;
    }

    /** One frame, `dt` seconds long. The component lives only as long as its
        leaf: on a destroyed leaf it does nothing. */
    method Update(dt: real)
      requires Valid() && dt >= 0.0
      modifies this, leaf
      ensures Valid()
      ensures leaf.y == old(leaf.y)
      ensures !old(leaf.alive) ==> unchanged(this, leaf)
      ensures old(leaf.alive) && !leaf.hasMaterial ==> !leaf.alive && unchanged(this)
      ensures old(leaf.alive) && leaf.hasMaterial ==>
                && elapsed == old(elapsed) + dt
                && alpha == 1.0 - FadeProgress(elapsed, duration)
                && (leaf.alive <==> FadeProgress(elapsed, duration) < 1.0)
    {
      if !leaf.alive {
        return;
      }
      if !leaf.hasMaterial {
        leaf.Destroy();
        return;
      }
      elapsed := elapsed + dt;
      var progress := FadeProgress(elapsed, duration);
      alpha := 1.0 - progress;
      if progress >= 1.0 {
        leaf.Destroy();
      }
    }
  }

  /** The spawn loop: not running, or waiting out the spawn interval. */
  datatype SpawnLoop = NotRunning | Waiting(elapsed: real)

  /** A pending cleanup after a fade-out: time waited so far, and the wait. */
  datatype Cleanup = Cleanup(elapsed: real, wait: real)

  /** The wait between two spawns: one over the spawn rate, or forever when the
      rate is zero (the engine divides to infinity). */
  function SpawnWait(spawnRate: real): (r: Option<real>)
    ensures r.Some? <==> spawnRate != 0.0
    ensures r.Some? ==> r.value * spawnRate == 1.0
  {
    if spawnRate == 0.0 then None else Some(1.0 / spawnRate)
  }

  /** Whether the spawn loop's wait ends within `dt` more seconds: the loop
      runs and the spawn rate is not zero. */
  predicate SpawnDue(loop: SpawnLoop, spawnRate: real, dt: real)
  {
    loop.Waiting? && var wait := SpawnWait(spawnRate); wait.Some? && loop.elapsed + dt >= wait.value
  }

  /** `after` is `before` with at most one more leaf at its end. */
  predicate AtMostOneAppended(before: seq<Leaf>, after: seq<Leaf>)
  {
    |before| <= |after| <= |before| + 1 && after[..|before|] == before
  }

  /** Dropping the destroyed leaves from a list that gained one live leaf at its
      end keeps that leaf, at the end. */
  lemma ExistingKeepsAppended(kept: seq<Leaf>, spawned: seq<Leaf>)
    requires AtMostOneAppended(kept, spawned)
    requires |kept| < |spawned| ==> spawned[|kept|].alive
    ensures AtMostOneAppended(Existing(kept), Existing(spawned))
    ensures |kept| < |spawned| ==> Existing(spawned) == Existing(kept) + [spawned[|kept|]]
    ensures |kept| == |spawned| ==> Existing(spawned) == Existing(kept)
  {
    if |kept| < |spawned| {
      assert spawned[..|kept| + 1] == spawned;
      ExistingSnoc(spawned, |kept|);
    } else {
      assert spawned == kept;
    }
  }

  /** The cleanups still waiting after `dt` more seconds, with their time
      advanced. */
  function StillWaiting(cs: seq<Cleanup>, dt: real): (r: seq<Cleanup>)
    ensures |r| <= |cs|
    ensures forall c :: c in r ==> c.elapsed < c.wait
  {
    if cs == [] then []
    else
      var e := cs[0].elapsed + dt;
      (if e < cs[0].wait then [Cleanup(e, cs[0].wait)] else []) + StillWaiting(cs[1..], dt)
  }

  /** Whether some cleanup comes due within `dt` more seconds. */
  predicate AnyDue(cs: seq<Cleanup>, dt: real)
  {
    cs != [] && (cs[0].elapsed + dt >= cs[0].wait || AnyDue(cs[1..], dt))
  }

  /** Selecting from a list extended by one leaf extends the selection by that
      leaf exactly when its flag is set. */
  lemma {:induction false} SelectSnoc(s: seq<Leaf>, keep: seq<bool>, x: Leaf, b: bool)
    requires |keep| == |s|
    ensures Select(s + [x], keep + [b]) == Select(s, keep) + (if b then [x] else [])
  {
    if s == [] {
      assert s + [x] == [x] && keep + [b] == [b];
    } else {
      assert (s + [x])[1..] == s[1..] + [x];
      assert (keep + [b])[1..] == keep[1..] + [b];
      SelectSnoc(s[1..], keep[1..], x, b);
    }
  }

  /** The pruning decision for one entry: a destroyed leaf goes, a leaf below
      the despawn height is destroyed and goes, any other leaf stays. */
  method PruneLeaf(leaf: Leaf, despawnHeight: real) returns (stays: bool)
    modifies leaf
    ensures stays <==> old(Keeps(leaf, despawnHeight))
    ensures leaf.alive == (old(leaf.alive) && !(old(leaf.y) < despawnHeight)) && leaf.y == old(leaf.y)
  {
    if !leaf.alive {
      stays := false;
    } else if leaf.y < despawnHeight {
      leaf.Destroy();
      stays := false;
    } else {
      stays := true;
    }
  }

  /** Selection over a list split after its first element. */
  lemma SelectCons(s: seq<Leaf>, keep: seq<bool>, i: nat)
    requires |keep| == |s| && i < |s|
    ensures Select(s[i..], keep[i..]) == (if keep[i] then [s[i]] else []) + Select(s[i + 1..], keep[i + 1..])
  {
    assert s[i..][1..] == s[i + 1..] && keep[i..][1..] == keep[i + 1..];
  }

  /** One backward pruning step on the list: removing entry `i` when its flag
      is down extends the selected suffix by one entry. */
  lemma PruneStepKept(s: seq<Leaf>, keep: seq<bool>, i: nat, kept: seq<Leaf>)
    requires |keep| == |s| && i < |s|
    requires kept == s[..i + 1] + Select(s[i + 1..], keep[i + 1..])
    ensures i < |kept|
    ensures (if keep[i] then kept else kept[..i] + kept[i + 1..]) == s[..i] + Select(s[i..], keep[i..])
  {
    SelectCons(s, keep, i);
    assert s[..i + 1] == s[..i] + [s[i]];
    SplitAt(s[..i], s[i], Select(s[i + 1..], keep[i + 1..]));
  }

  /** The per-frame pruning pass over a list of distinct leaves, from the last
      entry to the first: it keeps the leaves whose keep flag held on entry, in
      order, and destroys the live ones below the despawn height. */
  method PruneBelow(leaves: seq<Leaf>, despawnHeight: real) returns (kept: seq<Leaf>)
    requires Distinct(leaves)
    modifies set l | l in leaves
    ensures kept == Select(leaves, old(KeepFlags(leaves, despawnHeight)))
    ensures forall j :: 0 <= j < |leaves| ==>
              leaves[j].alive == (old(leaves[j].alive) && !(old(leaves[j].y) < despawnHeight))
    ensures forall l :: l in leaves ==> l.y == old(l.y)
  {
    ghost var keep := KeepFlags(leaves, despawnHeight);
    kept := leaves;
    var i := |leaves|;
    while i > 0
      invariant 0 <= i <= |leaves|
      invariant forall k :: 0 <= k < |leaves| ==>
                  keep[k] == (old(leaves[k].alive) && !(old(leaves[k].y) < despawnHeight))
      invariant kept == leaves[..i] + Select(leaves[i..], keep[i..])
      invariant forall k :: 0 <= k < i ==> leaves[k].alive == old(leaves[k].alive)
      invariant forall k :: i <= k < |leaves| ==>
                  leaves[k].alive == (old(leaves[k].alive) && !(old(leaves[k].y) < despawnHeight))
      invariant forall l :: l in leaves ==> l.y == old(l.y)
    {
      i := i - 1;
      var leaf := leaves[i];
      PruneStepKept(leaves, keep, i, kept);
      var stays := PruneLeaf(leaf, despawnHeight);
      if !stays {
        kept := kept[..i] + kept[i + 1..];
      }
    }
    assert leaves[0..] == leaves && keep[0..] == keep;
  }

  /** Exactly the cleanups that are not due go on waiting. */
  lemma {:induction false} StillWaitingCount(cs: seq<Cleanup>, dt: real)
    ensures |StillWaiting(cs, dt)| == |cs| <==> !AnyDue(cs, dt)
  {
    if cs != [] {
      StillWaitingCount(cs[1..], dt);
    }
  }

  /** One backward step of dropping destroyed leaves: removing entry `i` when
      its leaf no longer exists extends the kept suffix by one entry. */
  lemma ExistingStep(s: seq<Leaf>, i: nat, kept: seq<Leaf>)
    requires i < |s|
    requires kept == s[..i + 1] + Existing(s[i + 1..])
    ensures i < |kept|
    ensures (if s[i].alive then kept else kept[..i] + kept[i + 1..]) == s[..i] + Existing(s[i..])
  {
    assert s[i..] == [s[i]] + s[i + 1..];
    assert s[..i + 1] == s[..i] + [s[i]];
    SplitAt(s[..i], s[i], Existing(s[i + 1..]));
  }

  /** The destroyed-leaf drop of a cleanup, from the last entry to the first:
      the leaves that still exist, in their order. */
  method DropDestroyed(original: seq<Leaf>) returns (leaves: seq<Leaf>)
    ensures leaves == Existing(original)
  {
    leaves := original;
    var i := |original|;
    while i > 0
      invariant 0 <= i <= |original|
      invariant leaves == original[..i] + Existing(original[i..])
    {
      i := i - 1;
      ExistingStep(original, i, leaves);
      if !original[i].alive {
        leaves := leaves[..i] + leaves[i + 1..];
      }
    }
    assert original[0..] == original;
  }

  /** One step of the cleanup pass: handling entry `i` moves it from the part
      still to be looked at into the result; `waiting` and `anyDue` stand for
      the whole pass's outcome. */
  lemma CleanupsStep(cs: seq<Cleanup>, i: nat, dt: real, waiting: seq<Cleanup>, anyDue: bool,
                     remaining: seq<Cleanup>, due: bool)
    requires i < |cs|
    requires waiting == remaining + StillWaiting(cs[i..], dt)
    requires anyDue <==> due || AnyDue(cs[i..], dt)
    ensures var c := cs[i];
            var stays := c.elapsed + dt < c.wait;
            var remaining' := if stays then remaining + [Cleanup(c.elapsed + dt, c.wait)] else remaining;
            && waiting == remaining' + StillWaiting(cs[i + 1..], dt)
            && (anyDue <==> (due || !stays) || AnyDue(cs[i + 1..], dt))
  {
    var e := cs[i].elapsed + dt;
    var head := if e < cs[i].wait then [Cleanup(e, cs[i].wait)] else [];
    var rest := StillWaiting(cs[i + 1..], dt);
    UnfoldAt(cs, i, dt);
    assert remaining + (head + rest) == (remaining + head) + rest;
  }

  /** The cleanups from entry `i` on are entry `i` followed by the ones after it. */
  lemma UnfoldAt(cs: seq<Cleanup>, i: nat, dt: real)
    requires i < |cs|
    ensures var e := cs[i].elapsed + dt;
            && StillWaiting(cs[i..], dt)
               == (if e < cs[i].wait then [Cleanup(e, cs[i].wait)] else []) + StillWaiting(cs[i + 1..], dt)
            && (AnyDue(cs[i..], dt) <==> e >= cs[i].wait || AnyDue(cs[i + 1..], dt))
  {
    var t := cs[i..];
    assert t[0] == cs[i] && t[1..] == cs[i + 1..];
  }

  /** One frame of the pending cleanups: the ones still waiting, with their time
      advanced, and whether any came due. */
  method AdvanceCleanups(cs: seq<Cleanup>, dt: real) returns (remaining: seq<Cleanup>, due: bool)
    ensures remaining == StillWaiting(cs, dt)
    ensures due <==> AnyDue(cs, dt)
  {
    remaining := [];
    due := false;
    var i := 0;
    assert cs[0..] == cs;
    while i < |cs|
      invariant 0 <= i <= |cs|
      invariant StillWaiting(cs, dt) == remaining + StillWaiting(cs[i..], dt)
      invariant AnyDue(cs, dt) <==> due || AnyDue(cs[i..], dt)
    {
      CleanupsStep(cs, i, dt, StillWaiting(cs, dt), AnyDue(cs, dt), remaining, due);
      var c := cs[i];
      if c.elapsed + dt < c.wait {
        remaining := remaining + [Cleanup(c.elapsed + dt, c.wait)];
      } else {
        due := true;
      }
      i := i + 1;
    }
    assert cs[i..] == [];
    assert remaining + [] == remaining;
  }

  /** A fresh fade-out of the given duration for every leaf that still
      exists, in list order. */
  method AttachFades(leaves: seq<Leaf>, duration: real) returns (fades: seq<LeafFadeOut>)
    ensures |fades| == |Existing(leaves)|
    ensures forall k :: 0 <= k < |fades| ==>
              && fades[k].leaf == Existing(leaves)[k]
              && fresh(fades[k]) && fades[k].Valid()
              && fades[k].duration == duration && fades[k].elapsed == 0.0
  {
    fades := [];
    ghost var chosen: seq<Leaf> := [];
    var i := 0;
    while i < |leaves|
      invariant 0 <= i <= |leaves|
      invariant chosen == Existing(leaves[..i]) && |fades| == |chosen|
      invariant forall k :: 0 <= k < |fades| ==>
                  && fades[k].leaf == chosen[k]
                  && fresh(fades[k]) && fades[k].Valid()
                  && fades[k].duration == duration && fades[k].elapsed == 0.0
    {
      var leaf := leaves[i];
      ExistingSnoc(leaves, i);
      if leaf.alive {
        var fade := new LeafFadeOut(leaf, duration);
        fades := fades + [fade];
        chosen := chosen + [leaf];
      }
      i := i + 1;
    }
    assert leaves[..i] == leaves;
  }

  class FallingLeavesController {
    // configuration
    const maxLeaves: int
    const spawnRate: real
    const fallSpeed: real
    const spawnHeight: real
    const despawnHeight: real

    // state
    var isPlaying: bool
    var activeLeaves: seq<Leaf>
    var spawnLoop: SpawnLoop
    var cleanups: seq<Cleanup>
    /** Every leaf this controller has spawned. */
    ghost var Repr: set<Leaf>

    ghost predicate Valid()
      reads this
    {
      && (isPlaying <==> spawnLoop.Waiting?)
      && (spawnLoop.Waiting? ==> spawnLoop.elapsed >= 0.0)
      && (|activeLeaves| <= maxLeaves || activeLeaves == [])
      && (forall l :: l in activeLeaves ==> l in Repr)
      && Distinct(activeLeaves)
    }

    constructor (maxLeaves: int, spawnRate: real, fallSpeed: real, spawnHeight: real, despawnHeight: real)
      ensures Valid() && fresh(Repr)
      ensures this.maxLeaves == maxLeaves && this.spawnRate == spawnRate && this.fallSpeed == fallSpeed
      ensures this.spawnHeight == spawnHeight && this.despawnHeight == despawnHeight
      ensures !isPlaying && activeLeaves == [] && cleanups == []
    {
      this.maxLeaves := maxLeaves;
      this.spawnRate := spawnRate;
      this.fallSpeed := fallSpeed;
      this.spawnHeight := spawnHeight;
      this.despawnHeight := despawnHeight;
      isPlaying := false;
      activeLeaves := [];
      spawnLoop := NotRunning;
      cleanups := [];
      Repr := {};
    }

    /** Spawns one leaf, between the spawn height and two units above it, unless
        the list already holds the maximum number of leaves. */
    method SpawnLeaf()
      requires Valid()
      modifies this
      ensures Valid() && fresh(Repr - old(Repr))
      ensures old(|activeLeaves|) >= maxLeaves ==> activeLeaves == old(activeLeaves) && Repr == old(Repr)
      ensures old(|activeLeaves|) < maxLeaves ==>
                && |activeLeaves| == old(|activeLeaves|) + 1
                && activeLeaves[..old(|activeLeaves|)] == old(activeLeaves)
                && var leaf := activeLeaves[old(|activeLeaves|)];
                   fresh(leaf) && leaf.alive && leaf.hasMaterial && leaf.fallSpeed == fallSpeed
                   && spawnHeight <= leaf.y <= spawnHeight + 2.0
      ensures isPlaying == old(isPlaying) && spawnLoop == old(spawnLoop) && cleanups == old(cleanups)
    {
      if |activeLeaves| >= maxLeaves {
        return;
      }
      var t :| 0.0 <= t <= 1.0;
      var leaf := new Leaf(spawnHeight + 2.0 * t, fallSpeed, true);
      activeLeaves := activeLeaves + [leaf];
      Repr := Repr + {leaf};
      assert activeLeaves[..old(|activeLeaves|)] == old(activeLeaves);
    }

    /** Starts spawning unless playing: the spawn loop spawns its first leaf at
        once and then waits the spawn interval. */
    method StartFallingLeaves()
      requires Valid()
      modifies this
      ensures Valid() && fresh(Repr - old(Repr))
      ensures old(isPlaying) ==> unchanged(this)
      ensures !old(isPlaying) ==>
                && isPlaying && spawnLoop == Waiting(0.0)
                && |activeLeaves| == (if old(|activeLeaves|) < maxLeaves then old(|activeLeaves|) + 1 else old(|activeLeaves|))
                && activeLeaves[..old(|activeLeaves|)] == old(activeLeaves)
      ensures cleanups == old(cleanups)
    {
      if isPlaying {
        return;
      }
      isPlaying := true;
      spawnLoop := Waiting(0.0);
      SpawnLeaf();
    }

    /** Stops spawning unless stopped; the leaves stay where they are. */
    method StopFallingLeaves()
      requires Valid()
      modifies this
      ensures Valid()
      ensures !isPlaying && spawnLoop == NotRunning
      ensures activeLeaves == old(activeLeaves) && cleanups == old(cleanups) && Repr == old(Repr)
    {
      if !isPlaying {
        return;
      }
      isPlaying := false;
      spawnLoop := NotRunning;
    }

    /** Per-frame pruning, from the end of the list to the start: a destroyed
        leaf is dropped, a leaf below the despawn height is destroyed and
        dropped, the others stay in their order. */
    method UpdateLeaves()
      requires Valid()
      modifies this, Repr
      ensures Valid() && Repr == old(Repr)
      ensures activeLeaves == old(Survivors(activeLeaves, despawnHeight))
      ensures forall j :: 0 <= j < old(|activeLeaves|) ==>
                var l := old(activeLeaves[j]); l.alive == (old(l.alive) && !(old(l.y) < despawnHeight))
      ensures forall l :: l in Repr ==> l.y == old(l.y)
      ensures isPlaying == old(isPlaying) && spawnLoop == old(spawnLoop) && cleanups == old(cleanups)
    {
      ghost var original := activeLeaves;
      SurvivorsIsSelect(original, despawnHeight);
      assert Distinct(Survivors(original, despawnHeight)) && forall l :: l in Survivors(original, despawnHeight) ==> l in Repr by {
        SurvivorsMembers(original, despawnHeight);
        SurvivorsDistinct(original, despawnHeight);
      }
      activeLeaves := PruneBelow(activeLeaves, despawnHeight);
    }

    /** One frame: pruning while playing, then the spawn loop (a new leaf each
        time the spawn interval has passed), then any pending cleanups. */
    method Frame(dt: real)
      requires Valid() && dt >= 0.0
      modifies this, Repr
      ensures Valid() && fresh(Repr - old(Repr))
      ensures isPlaying == old(isPlaying)
      ensures cleanups == StillWaiting(old(cleanups), dt)
      ensures old(spawnLoop).NotRunning? ==> spawnLoop == NotRunning
      ensures old(spawnLoop).Waiting? ==>
                spawnLoop == if SpawnDue(old(spawnLoop), spawnRate, dt) then Waiting(0.0)
                             else Waiting(old(spawnLoop).elapsed + dt)
      ensures old(isPlaying) ==> forall j :: 0 <= j < old(|activeLeaves|) ==>
                var l := old(activeLeaves[j]); l.alive == (old(l.alive) && !(old(l.y) < despawnHeight))
      ensures forall l :: l in old(Repr) ==> l.y == old(l.y)
      ensures var kept := if old(isPlaying) then old(Survivors(activeLeaves, despawnHeight)) else old(activeLeaves);
              var base := if AnyDue(old(cleanups), dt) then Existing(kept) else kept;
              && |base| <= |activeLeaves| <= |base| + 1
              && activeLeaves[..|base|] == base
              && (!SpawnDue(old(spawnLoop), spawnRate, dt) ==> activeLeaves == base)
              && (|base| < |activeLeaves| ==> fresh(activeLeaves[|base|]) && activeLeaves[|base|].alive)
    {
      if isPlaying {
        UpdateLeaves();
      }
      SpawnAndClean(dt);
    }

    /** The spawn loop's and the cleanups' share of a frame: at most one leaf is
        added at the end, and a cleanup that comes due drops the destroyed
        leaves, the new one excepted. */
    method SpawnAndClean(dt: real)
      requires Valid() && dt >= 0.0
      modifies this
      ensures Valid() && fresh(Repr - old(Repr))
      ensures isPlaying == old(isPlaying)
      ensures cleanups == StillWaiting(old(cleanups), dt)
      ensures old(spawnLoop).NotRunning? ==> spawnLoop == NotRunning
      ensures old(spawnLoop).Waiting? ==>
                spawnLoop == if SpawnDue(old(spawnLoop), spawnRate, dt) then Waiting(0.0)
                             else Waiting(old(spawnLoop).elapsed + dt)
      ensures var base := if AnyDue(old(cleanups), dt) then Existing(old(activeLeaves)) else old(activeLeaves);
              && AtMostOneAppended(base, activeLeaves)
              && (!SpawnDue(old(spawnLoop), spawnRate, dt) ==> activeLeaves == base)
              && (|base| < |activeLeaves| ==> fresh(activeLeaves[|base|]) && activeLeaves[|base|].alive)
    {
      ghost var kept := activeLeaves;
      TickSpawnLoop(dt);
      ghost var spawned := activeLeaves;
      assert AtMostOneAppended(kept, spawned);
      assert !SpawnDue(old(spawnLoop), spawnRate, dt) ==> spawned == kept;
      TickCleanups(dt);
      ExistingKeepsAppended(kept, spawned);
    }

    /** The spawn loop's frame: once the wait is over a leaf is spawned (the loop
        runs only while playing) and the wait starts again. */
    method TickSpawnLoop(dt: real)
      requires Valid() && dt >= 0.0
      modifies this
      ensures Valid() && fresh(Repr - old(Repr))
      ensures isPlaying == old(isPlaying) && cleanups == old(cleanups)
      ensures old(spawnLoop).NotRunning? ==> unchanged(this)
      ensures old(spawnLoop).Waiting? ==>
                spawnLoop == if SpawnDue(old(spawnLoop), spawnRate, dt) then Waiting(0.0)
                             else Waiting(old(spawnLoop).elapsed + dt)
      ensures !SpawnDue(old(spawnLoop), spawnRate, dt) ==> activeLeaves == old(activeLeaves)
      ensures old(|activeLeaves|) <= |activeLeaves| <= old(|activeLeaves|) + 1
      ensures activeLeaves[..old(|activeLeaves|)] == old(activeLeaves)
      ensures old(|activeLeaves|) < |activeLeaves| ==>
                fresh(activeLeaves[old(|activeLeaves|)]) && activeLeaves[old(|activeLeaves|)].alive
    {
      match spawnLoop
      case NotRunning =>
      case Waiting(e0) =>
        var e := e0 + dt;
        var wait := SpawnWait(spawnRate);
        if wait.None? || e < wait.value {
          spawnLoop := Waiting(e);
        } else {
          spawnLoop := Waiting(0.0);
          SpawnLeaf();
        }
    }

    /** Drops the destroyed leaves, keeping the others in order; nothing is
        destroyed here. */
    method PruneDestroyed()
      requires Valid()
      modifies this
      ensures Valid() && Repr == old(Repr)
      ensures activeLeaves == Existing(old(activeLeaves))
      ensures isPlaying == old(isPlaying) && spawnLoop == old(spawnLoop) && cleanups == old(cleanups)
    {
      var leaves := DropDestroyed(activeLeaves);
      assert Distinct(leaves) && forall l :: l in leaves ==> l in Repr by {
        ExistingMembers(activeLeaves);
        ExistingDistinct(activeLeaves);
      }
      activeLeaves := leaves;
    }

    /** The pending cleanups' frame: those whose wait is over are finished, the
        rest go on waiting; if any finished, the destroyed leaves are dropped
        (once is enough, as a second drop changes nothing). */
    method TickCleanups(dt: real)
      requires Valid() && dt >= 0.0
      modifies this
      ensures Valid() && Repr == old(Repr)
      ensures cleanups == StillWaiting(old(cleanups), dt)
      ensures AnyDue(old(cleanups), dt) ==> activeLeaves == Existing(old(activeLeaves))
      ensures !AnyDue(old(cleanups), dt) ==> activeLeaves == old(activeLeaves)
      ensures isPlaying == old(isPlaying) && spawnLoop == old(spawnLoop)
    {
      var remaining, due := AdvanceCleanups(cleanups, dt);
      cleanups := remaining;
      if due {
        PruneDestroyed();
      }
    }

    /** Stops spawning, attaches a fade-out of the given duration to every leaf
        that still exists, in list order, and schedules a cleanup of destroyed
        leaves half a second after the fade-out ends. */
    method FadeOutLeaves(duration: real) returns (fades: seq<LeafFadeOut>)
      requires Valid()
      modifies this
      ensures Valid() && Repr == old(Repr)
      ensures !isPlaying && spawnLoop == NotRunning
      ensures activeLeaves == old(activeLeaves)
      ensures cleanups == old(cleanups) + [Cleanup(0.0, duration + 0.5)]
      ensures |fades| == |Existing(activeLeaves)|
      ensures forall k :: 0 <= k < |fades| ==>
                && fades[k].leaf == Existing(activeLeaves)[k]
                && fresh(fades[k]) && fades[k].Valid()
                && fades[k].duration == duration && fades[k].elapsed == 0.0
    {
      StopFallingLeaves();
      fades := AttachFades(activeLeaves, duration);
      cleanups := cleanups + [Cleanup(0.0, duration + 0.5)];
    }

    /** Destroys every leaf that still exists and empties the list. */
    method ClearAllLeaves()
      requires Valid()
      modifies this, Repr
      ensures Valid() && Repr == old(Repr)
      ensures activeLeaves == []
      ensures forall l :: l in old(activeLeaves) ==> !l.alive
      ensures forall l :: l in Repr && l !in old(activeLeaves) ==> l.alive == old(l.alive)
      ensures isPlaying == old(isPlaying) && spawnLoop == old(spawnLoop) && cleanups == old(cleanups)
    {
      var i := 0;
      while i < |activeLeaves|
        invariant 0 <= i <= |activeLeaves|
        invariant activeLeaves == old(activeLeaves) && Repr == old(Repr)
        invariant isPlaying == old(isPlaying) && spawnLoop == old(spawnLoop) && cleanups == old(cleanups)
        invariant forall j :: 0 <= j < i ==> !activeLeaves[j].alive
        invariant forall l :: l in Repr && l !in old(activeLeaves) ==> l.alive == old(l.alive)
      {
        var leaf := activeLeaves[i];
        if leaf.alive {
          leaf.Destroy();
        }
        i := i + 1;
      }
      activeLeaves := [];
    }

    /** Stop, then clear. */
    method ResetFallingLeaves()
      requires Valid()
      modifies this, Repr
      ensures Valid() && Repr == old(Repr)
      ensures !isPlaying && spawnLoop == NotRunning && activeLeaves == []
      ensures forall l :: l in old(activeLeaves) ==> !l.alive
      ensures cleanups == old(cleanups)
    {
      StopFallingLeaves();
      ClearAllLeaves();
    }
  }
}
