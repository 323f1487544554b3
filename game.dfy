/**
 * `World` of src/main.ts: the game loop. Each animation frame sweeps the
 * meteors (update each one, end the game on a hit, remove and score a
 * crashed one), spawns at most one new meteor while fewer are alive than
 * the score allows, and steps the player's controller. The meteors are those
 * of src/meteor.ts, the module src/main.ts imports; the controller is the one
 * of built/character.js, the only controller with `Enable`, `Disable`,
 * `ResetPlayer` and `characterLoaded`.
 */
module Game {
  import opened Base
  import opened Input
  import opened Steering
  import M = Meteors
  import BuiltCharacter

  /** How one meteor's own `update` turns out for the sweep, read from its state before the update. */
  datatype Verdict = Hits | Crashes | Flies

  /**
   * `update` keeps `hitPlayer` and sets `crash` below the floor, so the
   * flags the sweep tests after the update are known from the state before.
   */
  function VerdictOf(s: M.MeteorState): Verdict {
    if s.hitPlayer then Hits
    else if s.crash || s.bodyPos.y < M.FloorY then Crashes
    else Flies
  }

  lemma VerdictAfterUpdate(s: M.MeteorState, heading: Quat, rotate: Rotation)
    ensures var n := M.Updated(s, heading, rotate);
      (VerdictOf(s) == Hits <==> n.hitPlayer) &&
      (VerdictOf(s) == Crashes <==> !n.hitPlayer && n.crash)
  {
  }

  /**
   * What the sweep of `_updateMeteors` does with each meteor: `Kept`
   * (updated, still flying), `Scored` (updated, crashed, spliced out and
   * counted), `Skipped` (the one that slid into the spliced slot: the loop
   * index moves past it, so it is not updated this frame), `Ended`
   * (updated, hit the player: game over) and `Unreached` (after the end).
   */
  datatype Fate = Kept | Scored | Skipped | Ended | Unreached

  /** The fates of a row of meteors whose verdicts are `vs`, in order. */
  function Fates(vs: seq<Verdict>): (fs: seq<Fate>)
    ensures |fs| == |vs|
    decreases |vs|
  {
    if vs == [] then []
    else match vs[0]
      case Hits => [Ended] + seq(|vs| - 1, _ => Unreached)
      case Crashes => if |vs| == 1 then [Scored] else [Scored, Skipped] + Fates(vs[2..])
      case Flies => [Kept] + Fates(vs[1..])
  }

  /** The first `n` meteors the sweep leaves in the array: all but the scored ones, in order. */
  function Survivors<T>(xs: seq<T>, fs: seq<Fate>, n: nat): (r: seq<T>)
    requires |xs| == |fs| && n <= |xs|
    ensures |r| <= n
    decreases n
  {
    if n == 0 then []
    else Survivors(xs, fs, n - 1) + (if fs[n - 1] == Scored then [] else [xs[n - 1]])
  }

  /** The points scored among the first `n` fates. */
  function CountScored(fs: seq<Fate>, n: nat): nat
    requires n <= |fs|
    decreases n
  {
    if n == 0 then 0
    else CountScored(fs, n - 1) + (if fs[n - 1] == Scored then 1 else 0)
  }

  /** The fates of the meteors whose own `update` the sweep calls. */
  predicate Touches(f: Fate) {
    f == Kept || f == Scored || f == Ended
  }

  /** What a sweep leaves of one meteor's state: updated if the loop reached it, untouched if not. */
  function AfterSweep(s: M.MeteorState, f: Fate, heading: Quat, rotate: Rotation): M.MeteorState {
    if Touches(f) then M.Updated(s, heading, rotate) else s
  }

  /** One step of `Fates`: the fate of the first meteor and where the rest continues. */
  lemma Unfold(vs: seq<Verdict>)
    requires vs != []
    ensures vs[0] == Hits ==> Fates(vs) == [Ended] + seq(|vs| - 1, _ => Unreached)
    ensures vs[0] == Crashes && |vs| == 1 ==> Fates(vs) == [Scored]
    ensures vs[0] == Crashes && |vs| > 1 ==> Fates(vs) == [Scored, Skipped] + Fates(vs[2..])
    ensures vs[0] == Flies ==> Fates(vs) == [Kept] + Fates(vs[1..])
  {
  }

  /** Each fate agrees with the meteor's own verdict. */
  lemma {:induction false} FateVerdicts(vs: seq<Verdict>)
    ensures var fs := Fates(vs);
      forall k :: 0 <= k < |vs| ==>
        (fs[k] == Kept ==> vs[k] == Flies) &&
        (fs[k] == Scored ==> vs[k] == Crashes) &&
        (fs[k] == Ended ==> vs[k] == Hits)
    decreases |vs|
  {
    if vs != [] {
      var fs := Fates(vs);
      Unfold(vs);
      if vs[0] == Crashes && |vs| > 1 {
        var tail := Fates(vs[2..]);
        FateVerdicts(vs[2..]);
        assert forall k :: 2 <= k < |vs| ==> fs[k] == tail[k - 2] && vs[k] == vs[2..][k - 2];
      } else if vs[0] == Flies {
        var tail := Fates(vs[1..]);
        FateVerdicts(vs[1..]);
        assert forall k :: 1 <= k < |vs| ==> fs[k] == tail[k - 1] && vs[k] == vs[1..][k - 1];
      }
    }
  }

  /**
   * Splicing out a scored meteor makes the loop skip the next one, and
   * that is the only way one is skipped.
   */
  lemma {:induction false} ScoredThenSkipped(vs: seq<Verdict>)
    ensures var fs := Fates(vs);
      (forall k :: 0 <= k < |fs| - 1 && fs[k] == Scored ==> fs[k + 1] == Skipped) &&
      (forall k :: 0 <= k < |fs| && fs[k] == Skipped ==> 0 < k && fs[k - 1] == Scored)
    decreases |vs|
  {
    if vs != [] {
      var fs := Fates(vs);
      Unfold(vs);
      if vs[0] == Crashes && |vs| > 1 {
        var tail := Fates(vs[2..]);
        ScoredThenSkipped(vs[2..]);
        assert forall k :: 2 <= k < |vs| ==> fs[k] == tail[k - 2];
      } else if vs[0] == Flies {
        var tail := Fates(vs[1..]);
        ScoredThenSkipped(vs[1..]);
        assert forall k :: 1 <= k < |vs| ==> fs[k] == tail[k - 1];
      }
    }
  }

  /**
   * The sweep ends at a reached hit: after an `Ended` every meteor is
   * `Unreached`, and nothing is `Unreached` without an `Ended` before it.
   */
  lemma {:induction false} EndedIsFinal(vs: seq<Verdict>)
    ensures var fs := Fates(vs);
      (forall k, j :: 0 <= k < j < |fs| && fs[k] == Ended ==> fs[j] == Unreached) &&
      (forall j :: 0 <= j < |fs| && fs[j] == Unreached ==> exists k :: 0 <= k < j && fs[k] == Ended)
    decreases |vs|
  {
    if vs != [] {
      var fs := Fates(vs);
      Unfold(vs);
      if vs[0] == Hits {
        assert fs[0] == Ended;
      } else if |vs| > 1 && vs[0] == Crashes {
        var tail := Fates(vs[2..]);
        EndedIsFinal(vs[2..]);
        assert forall k :: 2 <= k < |vs| ==> fs[k] == tail[k - 2];
        forall j | 0 <= j < |fs| && fs[j] == Unreached
          ensures exists k :: 0 <= k < j && fs[k] == Ended
        {
          assert tail[j - 2] == Unreached;
          var k :| 0 <= k < j - 2 && tail[k] == Ended;
          assert fs[k + 2] == Ended;
        }
      } else if vs[0] == Flies {
        var tail := Fates(vs[1..]);
        EndedIsFinal(vs[1..]);
        assert forall k :: 1 <= k < |vs| ==> fs[k] == tail[k - 1];
        forall j | 0 <= j < |fs| && fs[j] == Unreached
          ensures exists k :: 0 <= k < j && fs[k] == Ended
        {
          assert tail[j - 1] == Unreached;
          var k :| 0 <= k < j - 1 && tail[k] == Ended;
          assert fs[k + 1] == Ended;
        }
      }
    }
  }

  /** Every meteor the sweep takes out of the array is one it scored. */
  lemma {:induction false} SurvivorsCount<T>(xs: seq<T>, fs: seq<Fate>, n: nat)
    requires |xs| == |fs| && n <= |xs|
    ensures |Survivors(xs, fs, n)| + CountScored(fs, n) == n
    decreases n
  {
    if n > 0 {
      SurvivorsCount(xs, fs, n - 1);
    }
  }

  /** A stretch with nothing scored in it stays in the array whole. */
  lemma {:induction false} UnscoredStretchStays<T>(xs: seq<T>, fs: seq<Fate>, o: nat, n: nat)
    requires |xs| == |fs| && o <= n <= |xs| && forall k :: o <= k < n ==> fs[k] != Scored
    ensures Survivors(xs, fs, n) == Survivors(xs, fs, o) + xs[o..n]
    ensures CountScored(fs, n) == CountScored(fs, o)
    decreases n - o
  {
    if n > o {
      UnscoredStretchStays(xs, fs, o, n - 1);
      assert xs[o..n - 1] + [xs[n - 1]] == xs[o..n];
    }
  }

  /** No element twice: each one is absent from the part before it. */
  predicate Distinct<T(==)>(xs: seq<T>)
    decreases |xs|
  {
    xs == [] || (xs[|xs| - 1] !in xs[..|xs| - 1] && Distinct(xs[..|xs| - 1]))
  }

  /** In a row without repetitions, distinct positions hold distinct elements. */
  lemma {:induction false} DistinctAt<T>(xs: seq<T>, o: nat)
    requires Distinct(xs) && o < |xs|
    ensures forall k :: 0 <= k < |xs| && k != o ==> xs[k] != xs[o]
    decreases |xs|
  {
    var n := |xs| - 1;
    var front := xs[..n];
    assert forall k :: 0 <= k < n ==> xs[k] == front[k];
    if o < n {
      DistinctAt(front, o);
      assert xs[n] !in front;
    } else {
      assert forall k :: 0 <= k < n ==> xs[k] in front;
    }
  }

  /** No element twice, read from the front: the first is not repeated further on, and the rest has none twice. */
  predicate DistinctFrom<T(==)>(xs: seq<T>)
    decreases |xs|
  {
    xs == [] || ((forall j :: 0 < j < |xs| ==> xs[j] != xs[0]) && DistinctFrom(xs[1..]))
  }

  /** The two readings agree. */
  lemma DistinctFromBack<T>(xs: seq<T>)
    requires Distinct(xs)
    ensures DistinctFrom(xs)
  {
    DistinctPairs(xs);
    PairsFront(xs);
  }

  lemma {:induction false} PairsFront<T>(xs: seq<T>)
    requires forall j, k :: 0 <= j < k < |xs| ==> xs[j] != xs[k]
    ensures DistinctFrom(xs)
    decreases |xs|
  {
    if xs != [] {
      PairsFront(xs[1..]);
    }
  }

  /** The same, for every pair of positions. */
  lemma DistinctPairs<T>(xs: seq<T>)
    requires Distinct(xs)
    ensures forall j, k :: 0 <= j < k < |xs| ==> xs[j] != xs[k]
  {
    forall k | 0 <= k < |xs| {
      DistinctAt(xs, k);
    }
  }

  /** The sweep only keeps meteors that were among the ones it looked at. */
  lemma {:induction false} SurvivorsSubset<T>(xs: seq<T>, fs: seq<Fate>, n: nat)
    requires |xs| == |fs| && n <= |xs|
    ensures forall x :: x in Survivors(xs, fs, n) ==> x in xs[..n]
    decreases n
  {
    if n > 0 {
      SurvivorsSubset(xs, fs, n - 1);
      assert forall x :: x in xs[..n - 1] ==> x in xs[..n];
    }
  }

  /** The sweep never puts a meteor in the array twice. */
  lemma {:induction false} SurvivorsDistinct<T>(xs: seq<T>, fs: seq<Fate>, n: nat)
    requires |xs| == |fs| && n <= |xs| && Distinct(xs)
    ensures Distinct(Survivors(xs, fs, n))
    decreases n
  {
    if n > 0 {
      var front := Survivors(xs, fs, n - 1);
      SurvivorsDistinct(xs, fs, n - 1);
      if fs[n - 1] != Scored {
        SurvivorsSubset(xs, fs, n - 1);
        DistinctAt(xs, n - 1);
        assert xs[n - 1] !in xs[..n - 1];
        var r := front + [xs[n - 1]];
        assert r[..|r| - 1] == front;
      } else {
        assert Survivors(xs, fs, n) == front;
      }
    }
  }

  /** The sweep only ever removes meteors from the array. */
  lemma SurvivorsIn<T>(xs: seq<T>, fs: seq<Fate>)
    requires |xs| == |fs|
    ensures forall x :: x in Survivors(xs, fs, |xs|) ==> x in xs
  {
    SurvivorsSubset(xs, fs, |xs|);
    assert xs[..|xs|] == xs;
  }

  /** A meteor the sweep does not score stays in the array. */
  lemma {:induction false} SurvivorsKeep<T>(xs: seq<T>, fs: seq<Fate>, n: nat)
    requires |xs| == |fs| && n <= |xs|
    ensures forall k :: 0 <= k < n && fs[k] != Scored ==> xs[k] in Survivors(xs, fs, n)
    decreases n
  {
    if n > 0 {
      SurvivorsKeep(xs, fs, n - 1);
    }
  }

  /** The meteors the sweep keeps were all in the array, so they still aim at the same player body. */
  lemma SurvivorsAimed(xs: seq<M.Meteor>, fs: seq<Fate>, id: BodyId)
    requires |xs| == |fs| && AimedAt(xs, id)
    ensures AimedAt(Survivors(xs, fs, |xs|), id)
  {
    SurvivorsSubset(xs, fs, |xs|);
    assert xs[..|xs|] == xs;
  }

  /** The meteors the sweep keeps were all in the array, so they keep their invariant. */
  lemma SurvivorsValid(xs: seq<M.Meteor>, fs: seq<Fate>)
    requires |xs| == |fs| && AllValid(xs)
    ensures AllValid(Survivors(xs, fs, |xs|))
  {
    var r := Survivors(xs, fs, |xs|);
    SurvivorsSubset(xs, fs, |xs|);
    assert xs[..|xs|] == xs;
    forall k | 0 <= k < |r|
      ensures r[k].Valid()
    {
      assert r[k] in xs;
      var j :| 0 <= j < |xs| && xs[j] == r[k];
    }
  }

  /** Every meteor of `ms` keeps its own invariant. */
  ghost predicate AllValid(ms: seq<M.Meteor>)
    reads ms
  {
    forall k :: 0 <= k < |ms| ==> ms[k].Valid()
  }

  /** Every meteor of `ms` was given the player body `id` to test its contacts against. */
  ghost predicate AimedAt(ms: seq<M.Meteor>, id: BodyId) {
    forall m :: m in ms ==> m.playerId == id
  }

  /** Meteor by meteor, the state `AfterSweep` gives from the states `ss` and the fates `fs`. */
  function AfterSweeps(ss: seq<M.MeteorState>, fs: seq<Fate>, ms: seq<M.Meteor>, rotate: Rotation): (r: seq<M.MeteorState>)
    requires |ss| == |fs| == |ms|
    ensures |r| == |ss| && forall k :: 0 <= k < |ss| ==> r[k] == AfterSweep(ss[k], fs[k], ms[k].heading, rotate)
  {
    seq(|ss|, k requires 0 <= k < |ss| => AfterSweep(ss[k], fs[k], ms[k].heading, rotate))
  }

  /** Appending a meteor not yet in the row keeps the row free of repetitions. */
  lemma DistinctAppend<T>(xs: seq<T>, x: T)
    requires Distinct(xs) && x !in xs
    ensures Distinct(xs + [x])
  {
    assert (xs + [x])[..|xs|] == xs;
  }

  /** A scored meteor deleted itself in its own `update`, so deleting it again changes nothing. */
  lemma ScoredDeleted(s: M.MeteorState, heading: Quat, rotate: Rotation)
    requires VerdictOf(s) == Crashes
    ensures M.Deleted(M.Updated(s, heading, rotate)) == M.Updated(s, heading, rotate)
  {
  }

  /** Every state of `ss` with its meteor taken out of the physics world and the scene. */
  function DeletedAll(ss: seq<M.MeteorState>): (r: seq<M.MeteorState>)
    ensures |r| == |ss| && forall k :: 0 <= k < |ss| ==> r[k] == M.Deleted(ss[k])
  {
    seq(|ss|, k requires 0 <= k < |ss| => M.Deleted(ss[k]))
  }

  /**
   * A meteor the sweep took out of the array was scored, so the sweep has
   * deleted it already: deleting it once more changes nothing.
   */
  lemma ScoredGone(orig: seq<M.Meteor>, ss: seq<M.MeteorState>, rotate: Rotation)
    requires |ss| == |orig|
    ensures var fs := Fates(Verdicts(ss));
      var after := AfterSweeps(ss, fs, orig, rotate);
      forall k :: 0 <= k < |orig| && orig[k] !in Survivors(orig, fs, |orig|) ==> M.Deleted(after[k]) == after[k]
  {
    var fs := Fates(Verdicts(ss));
    SurvivorsKeep(orig, fs, |orig|);
    FateVerdicts(Verdicts(ss));
    forall k | 0 <= k < |orig| && orig[k] !in Survivors(orig, fs, |orig|)
      ensures M.Deleted(AfterSweeps(ss, fs, orig, rotate)[k]) == AfterSweeps(ss, fs, orig, rotate)[k]
    {
      assert fs[k] == Scored;
      ScoredDeleted(ss[k], orig[k].heading, rotate);
    }
  }

  /** The meteor count the sweep-and-spawn step grows toward: `max(min(5, score + 1), ceil(score / 5))` once past 25. */
  function Target(score: nat): nat {
    var early := MinInt(5, score + 1);
    var late := if score > 25 then (score + 4) / 5 else 0;
    if early >= late then early else late
  }

  /** The spawn test of `_updateMeteors`, with `score / 5` a JavaScript (real) division. */
  predicate Spawns(alive: nat, score: nat) {
    alive < MinInt(5, score + 1) || (score > 25 && (alive as real) < (score as real) / 5.0)
  }

  /** A meteor is spawned exactly when fewer than `Target(score)` are alive. */
  lemma SpawnsBelowTarget(alive: nat, score: nat)
    ensures Spawns(alive, score) <==> alive < Target(score)
  {
    var q, r := (score + 4) / 5, (score + 4) % 5;
    assert score + 4 == 5 * q + r && 0 <= r < 5;
    assert (alive as real) < (score as real) / 5.0 <==> 5 * alive < score;
  }

  /** One more meteor per point up to five, five up to a score of 25, then one per five points, rounded up. */
  lemma TargetSchedule(score: nat)
    ensures score < 5 ==> Target(score) == score + 1
    ensures 5 <= score <= 25 ==> Target(score) == 5
    ensures score > 25 ==> Target(score) == (score + 4) / 5 && 5 * Target(score) >= score > 5 * (Target(score) - 1)
  {
    var q, r := (score + 4) / 5, (score + 4) % 5;
    assert score + 4 == 5 * q + r && 0 <= r < 5;
  }

  /** Scoring never lowers the number of meteors allowed. */
  lemma TargetMonotone(a: nat, b: nat)
    requires a <= b
    ensures Target(a) <= Target(b)
  {
    var qa, ra := (a + 4) / 5, (a + 4) % 5;
    var qb, rb := (b + 4) / 5, (b + 4) % 5;
    assert a + 4 == 5 * qa + ra && 0 <= ra < 5;
    assert b + 4 == 5 * qb + rb && 0 <= rb < 5;
  }

  /** The states of a row of meteors, one per meteor. */
  function States(ms: seq<M.Meteor>): (ss: seq<M.MeteorState>)
    reads ms
    ensures |ss| == |ms| && forall k :: 0 <= k < |ms| ==> ss[k] == ms[k].State()
  {
    seq(|ms|, k reads ms requires 0 <= k < |ms| => ms[k].State())
  }

  /** The verdicts of a row of meteor states, one per meteor. */
  function Verdicts(ss: seq<M.MeteorState>): (vs: seq<Verdict>)
    ensures |vs| == |ss| && forall k :: 0 <= k < |ss| ==> vs[k] == VerdictOf(ss[k])
  {
    seq(|ss|, k requires 0 <= k < |ss| => VerdictOf(ss[k]))
  }

  /** The state every meteor had when the sweep began. */
  function Snapshot(ms: seq<M.Meteor>): (pre: map<M.Meteor, M.MeteorState>)
    reads ms
    ensures forall k :: 0 <= k < |ms| ==> ms[k] in pre && pre[ms[k]] == ms[k].State()
    ensures forall x :: x in pre ==> x in ms
  {
    map x | x in ms :: x.State()
  }

  /** The verdict of a meteor by the state it had when the sweep began. */
  function VerdictIn(pre: map<M.Meteor, M.MeteorState>, x: M.Meteor): Verdict {
    if x in pre then VerdictOf(pre[x]) else Flies
  }

  /** The array the sweep leaves, the score, whether a hit ended it, and the meteors whose `update` it called. */
  datatype Outcome = Outcome(row: seq<M.Meteor>, points: nat, hit: bool, touched: set<M.Meteor>)

  /**
   * The rest of the sweep loop of `_updateMeteors` from index `i` of the
   * array `row`, as the loop runs it: stop at the end or at a hit; splice
   * a crashed meteor out and count a point; in every case but a hit, move
   * the index on by one. The verdicts come from the states in `pre`.
   */
  function Finish(row: seq<M.Meteor>, i: nat, points: nat, touched: set<M.Meteor>,
                  pre: map<M.Meteor, M.MeteorState>): Outcome
    decreases |row| + 1 - i
  {
    if i >= |row| then Outcome(row, points, false, touched)
    else match VerdictIn(pre, row[i])
      case Hits => Outcome(row, points, true, touched + {row[i]})
      case Crashes => Finish(row[..i] + row[i + 1..], i + 1, points + 1, touched + {row[i]}, pre)
      case Flies => Finish(row, i + 1, points, touched + {row[i]}, pre)
  }

  /** The meteors among the first `n` whose fate has them updated. */
  function Updates<T>(xs: seq<T>, fs: seq<Fate>, n: nat): set<T>
    requires |xs| == |fs| && n <= |xs|
    decreases n
  {
    if n == 0 then {} else Updates(xs, fs, n - 1) + (if Touches(fs[n - 1]) then {xs[n - 1]} else {})
  }

  /** Past the end of the updates nothing more is added. */
  lemma {:induction false} UpdatesStretch<T>(xs: seq<T>, fs: seq<Fate>, o: nat, n: nat)
    requires |xs| == |fs| && o <= n <= |xs| && forall k :: o <= k < n ==> !Touches(fs[k])
    ensures Updates(xs, fs, n) == Updates(xs, fs, o)
    decreases n - o
  {
    if n > o {
      UpdatesStretch(xs, fs, o, n - 1);
    }
  }

  /** In a row without repetitions, a meteor is among the updated ones exactly when its own fate says so. */
  lemma {:induction false} UpdatesAt<T>(xs: seq<T>, fs: seq<Fate>, n: nat, k: nat)
    requires |xs| == |fs| && n <= |xs| && k < |xs| && Distinct(xs)
    ensures xs[k] in Updates(xs, fs, n) <==> k < n && Touches(fs[k])
    decreases n
  {
    if n > 0 {
      UpdatesAt(xs, fs, n - 1, k);
      DistinctAt(xs, n - 1);
    }
  }

  /**
   * Running the loop from a point the sweep reaches gives the survivors,
   * the points of every scored meteor, a hit exactly when a meteor's fate
   * is `Ended`, and the updated meteors of the fates.
   */
  lemma {:induction false} FinishFrom(orig: seq<M.Meteor>, pre: map<M.Meteor, M.MeteorState>,
                                      vs: seq<Verdict>, fs: seq<Fate>, o: nat, ms: seq<M.Meteor>, i: nat,
                                      base: nat, points: nat, touched: set<M.Meteor>)
    requires Swept(orig, vs, fs, o, ms, i)
    requires forall k :: 0 <= k < |orig| ==> vs[k] == VerdictIn(pre, orig[k])
    requires points == base + CountScored(fs, o) && touched == Updates(orig, fs, o)
    ensures Finish(ms, i, points, touched, pre) ==
      Outcome(Survivors(orig, fs, |orig|), base + CountScored(fs, |fs|), Ended in fs, Updates(orig, fs, |orig|))
    decreases |orig| - o, 1
  {
    if i >= |ms| {
      SweptAll(orig, vs, fs, o, ms, i);
    } else {
      Current(orig, vs, fs, o, ms, i);
      assert VerdictIn(pre, ms[i]) == vs[o];
      if vs[o] == Hits {
        FinishHit(orig, vs, fs, o, ms, i, touched);
      } else if vs[o] == Crashes {
        FinishCrash(orig, pre, vs, fs, o, ms, i, base, points, touched);
      } else {
        FinishFly(orig, pre, vs, fs, o, ms, i, base, points, touched);
      }
    }
  }

  /** `FinishFrom` at a meteor that crashed. */
  lemma {:induction false} FinishCrash(orig: seq<M.Meteor>, pre: map<M.Meteor, M.MeteorState>,
                                       vs: seq<Verdict>, fs: seq<Fate>, o: nat, ms: seq<M.Meteor>, i: nat,
                                       base: nat, points: nat, touched: set<M.Meteor>)
    requires Swept(orig, vs, fs, o, ms, i)
    requires forall k :: 0 <= k < |orig| ==> vs[k] == VerdictIn(pre, orig[k])
    requires points == base + CountScored(fs, o) && touched == Updates(orig, fs, o)
    requires i < |ms| && o < |vs| && vs[o] == Crashes
    ensures Finish(ms, i, points, touched, pre) ==
      Outcome(Survivors(orig, fs, |orig|), base + CountScored(fs, |fs|), Ended in fs, Updates(orig, fs, |orig|))
    decreases |orig| - o, 0
  {
    Current(orig, vs, fs, o, ms, i);
    assert VerdictIn(pre, ms[i]) == Crashes;
    var o2 := CrashStep(orig, vs, fs, o, ms, i);
    TouchedStep(orig, fs, o, touched);
    UpdatesStretch(orig, fs, o + 1, o2);
    FinishFrom(orig, pre, vs, fs, o2, ms[..i] + ms[i + 1..], i + 1, base, points + 1, touched + {ms[i]});
  }

  /** `FinishFrom` at a meteor still flying. */
  lemma {:induction false} FinishFly(orig: seq<M.Meteor>, pre: map<M.Meteor, M.MeteorState>,
                                     vs: seq<Verdict>, fs: seq<Fate>, o: nat, ms: seq<M.Meteor>, i: nat,
                                     base: nat, points: nat, touched: set<M.Meteor>)
    requires Swept(orig, vs, fs, o, ms, i)
    requires forall k :: 0 <= k < |orig| ==> vs[k] == VerdictIn(pre, orig[k])
    requires points == base + CountScored(fs, o) && touched == Updates(orig, fs, o)
    requires i < |ms| && o < |vs| && vs[o] == Flies
    ensures Finish(ms, i, points, touched, pre) ==
      Outcome(Survivors(orig, fs, |orig|), base + CountScored(fs, |fs|), Ended in fs, Updates(orig, fs, |orig|))
    decreases |orig| - o, 0
  {
    Current(orig, vs, fs, o, ms, i);
    assert VerdictIn(pre, ms[i]) == Flies;
    FlyStep(orig, vs, fs, o, ms, i);
    TouchedStep(orig, fs, o, touched);
    FinishFrom(orig, pre, vs, fs, o + 1, ms, i + 1, base, points, touched + {ms[i]});
  }

  /** A meteor the sweep reaches joins the updated ones when its fate touches it. */
  lemma TouchedStep<T>(orig: seq<T>, fs: seq<Fate>, o: nat, touched: set<T>)
    requires |orig| == |fs| && o < |orig| && touched == Updates(orig, fs, o) && Touches(fs[o])
    ensures Updates(orig, fs, o + 1) == touched + {orig[o]}
  {
  }

  /** At a hit the loop stops with the array as it stands, which is already the survivors. */
  lemma FinishHit<T>(orig: seq<T>, vs: seq<Verdict>, fs: seq<Fate>, o: nat, ms: seq<T>, i: nat, touched: set<T>)
    requires Swept(orig, vs, fs, o, ms, i) && i < |ms| && o < |vs| && vs[o] == Hits && touched == Updates(orig, fs, o)
    ensures ms == Survivors(orig, fs, |orig|) && Ended in fs && CountScored(fs, |fs|) == CountScored(fs, o)
    ensures touched + {ms[i]} == Updates(orig, fs, |orig|)
  {
    Current(orig, vs, fs, o, ms, i);
    HitEnds(orig, vs, fs, o, ms, i);
    TouchedStep(orig, fs, o, touched);
    UpdatesStretch(orig, fs, o + 1, |orig|);
  }

  /** The whole sweep, in the terms of the fates. */
  lemma SweepOutcome(orig: seq<M.Meteor>, pre: map<M.Meteor, M.MeteorState>, vs: seq<Verdict>, base: nat)
    requires |vs| == |orig| && forall k :: 0 <= k < |orig| ==> vs[k] == VerdictIn(pre, orig[k])
    ensures var fs := Fates(vs);
      Finish(orig, 0, base, {}, pre) ==
      Outcome(Survivors(orig, fs, |orig|), base + CountScored(fs, |fs|), Ended in fs, Updates(orig, fs, |orig|))
  {
    var fs := Fates(vs);
    SweptStart(orig, vs, fs);
    FinishFrom(orig, pre, vs, fs, 0, orig, 0, base, base, {});
  }

  /**
   * Where the sweep loop stands: the array `kept` holds meteors of `pre`;
   * unless a hit has ended the loop, the ones from index `i` on are
   * distinct and not yet updated; and finishing the loop from here gives
   * what running it from the start gives.
   */
  ghost predicate Sweeping(row: seq<M.Meteor>, pre: map<M.Meteor, M.MeteorState>,
                           kept: seq<M.Meteor>, i: nat, points: nat, touched: set<M.Meteor>, hit: bool) {
    (forall j :: 0 <= j < |kept| ==> kept[j] in pre) &&
    (!hit ==> forall j :: i <= j < |kept| ==> kept[j] !in touched) &&
    (!hit && i <= |kept| ==> DistinctFrom(kept[i..])) &&
    Finish(row, 0, 0, {}, pre) == if hit then Outcome(kept, points, true, touched) else Finish(kept, i, points, touched, pre)
  }

  /** Before the first turn the loop stands at the start of the whole array. */
  lemma SweepingStart(row: seq<M.Meteor>, pre: map<M.Meteor, M.MeteorState>)
    requires Distinct(row) && forall k :: 0 <= k < |row| ==> row[k] in pre
    ensures Sweeping(row, pre, row, 0, 0, {}, false)
  {
    DistinctFromBack(row);
    assert row[0..] == row;
  }

  /**
   * One turn of the loop keeps its standing: the meteor at `i` is one of
   * `pre` not yet updated, and a hit ends the loop, a crash splices it out
   * and scores, a miss moves on.
   */
  lemma SweepingStep(row: seq<M.Meteor>, pre: map<M.Meteor, M.MeteorState>,
                     kept: seq<M.Meteor>, i: nat, points: nat, touched: set<M.Meteor>)
    requires Sweeping(row, pre, kept, i, points, touched, false) && i < |kept|
    ensures kept[i] in pre && kept[i] !in touched
    ensures var v, t := VerdictIn(pre, kept[i]), touched + {kept[i]};
      (v == Hits ==> Sweeping(row, pre, kept, i, points, t, true)) &&
      (v == Crashes ==> Sweeping(row, pre, kept[..i] + kept[i + 1..], i + 1, points + 1, t, false)) &&
      (v == Flies ==> Sweeping(row, pre, kept, i + 1, points, t, false))
  {
    var t := touched + {kept[i]};
    assert kept[i..][1..] == kept[i + 1..];
    var spliced := kept[..i] + kept[i + 1..];
    assert forall j :: i < j < |kept| ==> kept[j] == kept[i..][j - i];
    if i + 1 < |kept| {
      assert DistinctFrom(kept[i + 1..]);
      assert kept[i + 1..][1..] == kept[i + 2..] == spliced[i + 1..];
      assert forall j :: i + 1 <= j < |spliced| ==> spliced[j] == kept[j + 1];
    }
  }

  /**
   * The meteors of `pre` are valid and in the state the sweep has put them
   * in so far: updated once if they are among `touched`, as they were in
   * `pre` otherwise.
   */
  ghost predicate Tracks(pre: map<M.Meteor, M.MeteorState>, touched: set<M.Meteor>, rotate: Rotation)
    reads pre.Keys
  {
    forall x {:trigger pre[x]} :: x in pre ==>
      x.Valid() && x.State() == if x in touched then M.Updated(pre[x], x.heading, rotate) else pre[x]
  }

  /**
   * The `update` the sweep calls on a meteor it has not reached before:
   * afterwards that meteor counts as updated too, and its two flags give
   * the verdict its state in `pre` called for.
   */
  method UpdateTracked(m: M.Meteor, ghost pre: map<M.Meteor, M.MeteorState>,
                       ghost touched: set<M.Meteor>, rotate: Rotation)
    requires m in pre && m !in touched && Tracks(pre, touched, rotate)
    modifies m
    ensures Tracks(pre, touched + {m}, rotate)
    ensures m.hitPlayer <==> VerdictIn(pre, m) == Hits
    ensures !m.hitPlayer ==> (m.crash <==> VerdictIn(pre, m) == Crashes)
  {
    m.Update(rotate);
    VerdictAfterUpdate(pre[m], m.heading, rotate);
  }

  /**
   * Once the loop has run its course, every meteor of the row is valid
   * and in the state its fate gives it: updated when the sweep reached it,
   * as it was otherwise.
   */
  lemma SweptStates(row: seq<M.Meteor>, pre: map<M.Meteor, M.MeteorState>, ss: seq<M.MeteorState>,
                    fs: seq<Fate>, touched: set<M.Meteor>, rotate: Rotation)
    requires |fs| == |row| == |ss| && Distinct(row) && touched == Updates(row, fs, |row|)
    requires forall k :: 0 <= k < |row| ==> row[k] in pre && pre[row[k]] == ss[k]
    requires Tracks(pre, touched, rotate)
    ensures AllValid(row) && States(row) == AfterSweeps(ss, fs, row, rotate)
  {
    forall k | 0 <= k < |row|
      ensures row[k].Valid() && row[k].State() == AfterSweep(ss[k], fs[k], row[k].heading, rotate)
    {
      UpdatesAt(row, fs, |row|, k);
    }
  }

  /**
   * Where the loop stops, the sweep is done: a hit exactly when some fate
   * is `Ended`, the survivors left in the array, a point per scored
   * meteor, and every meteor in the state its fate gives it.
   */
  lemma SweepDone(row: seq<M.Meteor>, pre: map<M.Meteor, M.MeteorState>, ss: seq<M.MeteorState>,
                  kept: seq<M.Meteor>, i: nat, points: nat, touched: set<M.Meteor>, hit: bool,
                  rotate: Rotation)
    requires Distinct(row) && |ss| == |row| && forall k :: 0 <= k < |row| ==> row[k] in pre && pre[row[k]] == ss[k]
    requires Sweeping(row, pre, kept, i, points, touched, hit) && (hit || i >= |kept|)
    requires Tracks(pre, touched, rotate)
    ensures var fs := Fates(Verdicts(ss));
      hit == (Ended in fs) && kept == Survivors(row, fs, |fs|) && points == CountScored(fs, |fs|) &&
      AllValid(row) && States(row) == AfterSweeps(ss, fs, row, rotate)
    ensures Distinct(kept) && AllValid(kept) && |kept| + points == |row|
  {
    var vs := Verdicts(ss);
    var fs := Fates(vs);
    SweepOutcome(row, pre, vs, 0);
    SweptStates(row, pre, ss, fs, touched, rotate);
    SurvivorsDistinct(row, fs, |row|);
    SurvivorsValid(row, fs);
    SurvivorsCount(row, fs, |row|);
  }

  /**
   * One turn of the sweep loop at index `i`: update the meteor there; on a
   * hit report it; otherwise splice it out and score a point if it
   * crashed, and move the index on.
   */
  method SweepTurn(ghost row: seq<M.Meteor>, ghost pre: map<M.Meteor, M.MeteorState>,
                   kept: seq<M.Meteor>, i: nat, points: nat, ghost touched: set<M.Meteor>,
                   rotate: Rotation)
    returns (kept': seq<M.Meteor>, i': nat, points': nat, ghost touched': set<M.Meteor>, hit: bool)
    requires Sweeping(row, pre, kept, i, points, touched, false) && i < |kept|
    requires Tracks(pre, touched, rotate)
    modifies kept[i]
    ensures Sweeping(row, pre, kept', i', points', touched', hit) && Tracks(pre, touched', rotate)
    ensures hit ==> kept' == kept && i' == i
    ensures !hit ==> |kept'| + 1 - i' < |kept| + 1 - i
  {
    var m := kept[i];
    SweepingStep(row, pre, kept, i, points, touched);
    UpdateTracked(m, pre, touched, rotate);
    kept', i', points', touched', hit := kept, i, points, touched + {m}, false;
    if m.hitPlayer {
      hit := true;
    } else {
      if m.crash {
        kept' := kept[..i] + kept[i + 1..];
        points' := points + 1;
      }
      i' := i + 1;
    }
  }

  /**
   * The sweep of `_updateMeteors` over the meteor array `row`: update each
   * meteor in turn; on a hit stop and report it; splice a crashed one out
   * and score a point (the loop index still advances, skipping the meteor
   * that moved into its slot). Returns the array as the loop leaves it and
   * the points scored.
   */
  method Sweep(row: seq<M.Meteor>, rotate: Rotation) returns (kept: seq<M.Meteor>, points: nat, hit: bool)
    requires Distinct(row) && AllValid(row)
    modifies row
    ensures var fs := Fates(Verdicts(old(States(row))));
      hit == (Ended in fs) && kept == Survivors(row, fs, |fs|) && points == CountScored(fs, |fs|) &&
      AllValid(row) && States(row) == AfterSweeps(old(States(row)), fs, row, rotate)
    ensures Distinct(kept) && AllValid(kept) && |kept| + points == |row|
  {
    ghost var pre := Snapshot(row);
    ghost var touched: set<M.Meteor> := {};
    kept, points, hit := row, 0, false;
    var i: nat := 0;
    SweepingStart(row, pre);
    while !hit && i < |kept|
      invariant Sweeping(row, pre, kept, i, points, touched, hit)
      invariant Tracks(pre, touched, rotate)
      decreases |kept| + 1 - i, if hit then 0 else 1
    {
      kept, i, points, touched, hit := SweepTurn(row, pre, kept, i, points, touched, rotate);
    }
    SweepDone(row, pre, old(States(row)), kept, i, points, touched, hit, rotate);
  }

  class World {
    /** `_started`: a game is running (the frame loop keeps itself going). */
    var started: bool
    var score: nat
    var meteors: seq<M.Meteor>
    /** `_previousRAF`: the time stamp of the previous frame, `null` before the first. */
    var previousRAF: Option<real>
    /** Frame callbacks requested with `requestAnimationFrame` and not yet run. */
    var pending: nat
    /** `_controls`. */
    const controls: BuiltCharacter.Controller

    ghost predicate Valid()
      reads this, controls, controls.fsm, meteors
    {
      controls.Valid() && Distinct(meteors) && AllValid(meteors) && AimedAt(meteors, controls.playerId) &&
      |meteors| <= Target(score) &&
      (started || pending > 0 || meteors != [] ==> controls.characterLoaded)
    }

    /**
     * `_Init` and the `_Start` it ends with: a fresh controller (its
     * loading callbacks arrive later, as calls on `controls`), score 0,
     * no meteors, the input enabled, no frame requested.
     */
    constructor ()
      ensures Valid() && !started && score == 0 && meteors == [] && previousRAF == None && pending == 0
      ensures fresh(controls) && fresh(controls.input) && fresh(controls.fsm)
      ensures !controls.loaded && !controls.characterLoaded
      ensures controls.input.keys == Released && !controls.input.canJump
    {
      started := false;
      previousRAF := None;
      pending := 0;
      controls := new BuiltCharacter.Controller();
      score := 0;
      meteors := [];
      new;
      controls.Enable();
    }

    /**
     * `_Start`: score 0 and an empty array. The meteors that were in it
     * are dropped WITHOUT `delete`: whatever is still in the scene and the
     * physics world stays there.
     */
    method Start()
      requires Valid()
      modifies this, controls.input
      ensures Valid() && score == 0 && meteors == []
      ensures started == old(started) && pending == old(pending) && previousRAF == old(previousRAF)
      ensures controls.input.keys == Released && !controls.input.canJump
      ensures forall m :: m in old(meteors) ==> m.State() == old(m.State())
    {
      score := 0;
      meteors := [];
      controls.Enable();
    }

    /** `_animate`: while a game runs, request the next frame. */
    method Animate()
      modifies this
      ensures pending == old(pending) + (if started then 1 else 0)
      ensures started == old(started) && score == old(score) && meteors == old(meteors) && previousRAF == old(previousRAF)
    {
      if !started {
        return;
      }
      pending := pending + 1;
    }

    /** The start button, offered once the character has loaded. */
    method Begin()
      requires Valid() && controls.characterLoaded
      modifies this
      ensures Valid() && started && pending == old(pending) + 1
      ensures score == old(score) && meteors == old(meteors) && previousRAF == old(previousRAF)
    {
      started := true;
      Animate();
    }

    /** The restart button of the game-over screen: run again, then `_Start`. */
    method Restart()
      requires Valid() && controls.characterLoaded
      modifies this, controls.input
      ensures Valid() && started && pending == old(pending) + 1 && score == 0 && meteors == []
      ensures previousRAF == old(previousRAF)
      ensures controls.input.keys == Released && !controls.input.canJump
      ensures forall m :: m in old(meteors) ==> m.State() == old(m.State())
    {
      started := true;
      Animate();
      Start();
    }

    /**
     * `_GameOver`: stop the run, delete every meteor and empty the array,
     * disable the input and put the player back at the start.
     */
    method GameOver()
      requires Valid() && controls.characterLoaded
      modifies this, meteors, controls, controls.input
      ensures Valid() && !started && meteors == [] && score == old(score)
      ensures pending == old(pending) && previousRAF == old(previousRAF)
      ensures forall x :: x in old(meteors) ==> x.State() == M.Deleted(old(x.State()))
      ensures controls.Posed() == BuiltCharacter.ResetPose && controls.input.keys == Released && !controls.input.canJump
      ensures controls.characterLoaded && controls.playerId == old(controls.playerId)
      ensures controls.canJump == old(controls.canJump) && controls.inputVelocity == old(controls.inputVelocity)
    {
      started := false;
      DeleteAll(meteors);
      meteors := [];
      controls.Disable();
      controls.ResetPlayer();
    }

    /** The loop of `_GameOver`: `delete` on every meteor of the row, in order. */
    static method DeleteAll(row: seq<M.Meteor>)
      requires Distinct(row)
      modifies row
      ensures forall k :: 0 <= k < |row| ==> row[k].State() == M.Deleted(old(row[k].State()))
    {
      var j: nat := 0;
      while j < |row|
        invariant j <= |row|
        invariant forall k :: 0 <= k < |row| ==>
          row[k].State() == (if k < j then M.Deleted(old(row[k].State())) else old(row[k].State()))
      {
        DistinctAt(row, j);
        row[j].Delete();
        j := j + 1;
      }
    }

    /**
     * The sweep of `_updateMeteors` on the world's own array: the array
     * and the score as the loop leaves them, with `fs` the fates of the
     * meteors it started with.
     */
    method SweepMeteors(rotate: Rotation) returns (hit: bool, ghost fs: seq<Fate>)
      requires Valid()
      modifies this, meteors
      ensures fs == Fates(Verdicts(old(States(meteors))))
      ensures Valid() && hit == (Ended in fs)
      ensures SweptAt(old(meteors), old(States(meteors)), old(score), old(started), rotate)
      ensures pending == old(pending) && previousRAF == old(previousRAF)
    {
      ghost var orig := meteors;
      fs := Fates(Verdicts(States(meteors)));
      var kept, points;
      assert controls as object !in meteors && controls.fsm as object !in meteors;
      kept, points, hit := Sweep(meteors, rotate);
      assert controls.Valid() && |kept| + points == |orig| && |orig| <= Target(score);
      SurvivorsAimed(orig, fs, controls.playerId);
      ghost var swept := States(orig);
      Keep(kept, points);
      assert States(orig) == swept;
    }

    /** The array and the score as the sweep leaves them: `kept` and `points` more. */
    method Keep(kept: seq<M.Meteor>, points: nat)
      requires controls.Valid() && Distinct(kept) && AllValid(kept) && AimedAt(kept, controls.playerId)
      requires |kept| + points <= Target(score)
      requires started || pending > 0 || kept != [] ==> controls.characterLoaded
      modifies this
      ensures Valid() && meteors == kept && score == old(score) + points
      ensures started == old(started) && pending == old(pending) && previousRAF == old(previousRAF)
    {
      ghost var before := score;
      meteors, score := kept, score + points;
      TargetMonotone(before, score);
    }

    /**
     * The spawn of `_updateMeteors`: one meteor from the draws `d`, facing
     * `heading`, appended when fewer than `Target` are alive.
     */
    method Spawn(d: M.Draws, heading: Quat)
      requires Valid() && controls.characterLoaded && M.Drawn(d)
      modifies this
      ensures Valid() && score == old(score) && started == old(started)
      ensures pending == old(pending) && previousRAF == old(previousRAF)
      ensures unchanged(controls, controls.input, controls.fsm)
      ensures |meteors| == |old(meteors)| + (if Spawns(|old(meteors)|, score) then 1 else 0)
      ensures meteors[..|old(meteors)|] == old(meteors)
      ensures |meteors| > |old(meteors)| ==>
        fresh(meteors[|old(meteors)|]) && meteors[|old(meteors)|].heading == heading &&
        meteors[|old(meteors)|].playerId == controls.playerId &&
        meteors[|old(meteors)|].radius == M.Radius(d.size) &&
        meteors[|old(meteors)|].target == M.Target(d, M.Radius(d.size)) &&
        meteors[|old(meteors)|].State() == M.MeteorState(false, false, true, true, M.Start(d), Zero, M.Start(d))
    {
      if |meteors| < MinInt(5, score + 1) || (score > 25 && (|meteors| as real) < (score as real) / 5.0) {
        SpawnsBelowTarget(|meteors|, score);
        var m := new M.Meteor(d, heading, controls.playerId);
        DistinctAppend(meteors, m);
        meteors := meteors + [m];
        assert meteors[..|old(meteors)|] == old(meteors);
      } else {
        SpawnsBelowTarget(|meteors|, score);
        assert meteors[..|old(meteors)|] == old(meteors);
      }
    }

    /**
     * `_updateMeteors`: the sweep; on a hit, game over (every meteor ends
     * up deleted); otherwise the spawn.
     */
    method UpdateMeteors(d: M.Draws, heading: Quat, rotate: Rotation)
      requires Valid() && controls.characterLoaded && M.Drawn(d)
      modifies this, meteors, controls, controls.input
      ensures Valid()
      ensures Updated(old(meteors), old(States(meteors)), old(score), old(started), d, heading, rotate)
      ensures var fs := Fates(Verdicts(old(States(meteors))));
        var kept := Survivors(old(meteors), fs, |fs|);
        Ended !in fs && |meteors| > |kept| ==> fresh(meteors[|kept|])
      ensures var fs := Fates(Verdicts(old(States(meteors))));
        Ended in fs ==>
          controls.Posed() == BuiltCharacter.ResetPose && controls.input.keys == Released &&
          controls.canJump == old(controls.canJump)
      ensures var fs := Fates(Verdicts(old(States(meteors))));
        Ended !in fs ==> unchanged(controls, controls.input)
      ensures unchanged(controls.fsm) && controls.characterLoaded
      ensures pending == old(pending) && previousRAF == old(previousRAF)
    {
      ghost var orig, ss := meteors, States(meteors);
      var hit;
      ghost var fs;
      assert controls as object !in meteors && controls.input as object !in meteors && controls.fsm as object !in meteors;
      hit, fs := SweepMeteors(rotate);
      if hit {
        EndOnHit(orig, ss, old(score), old(started), d, heading, rotate);
        return;
      }
      SpawnOnMiss(orig, ss, old(score), old(started), d, heading, rotate);
    }

    /**
     * Where the sweep leaves the world that held `orig`, in the states
     * `ss`, with the score `score0` and the flag `started0`: the array
     * holds the survivors, the crashed meteors are scored, every meteor
     * of `orig` is in the state the sweep gave it and the run flag is as
     * it was.
     */
    ghost predicate SweptAt(orig: seq<M.Meteor>, ss: seq<M.MeteorState>, score0: nat, started0: bool, rotate: Rotation)
      reads this, orig
    {
      |ss| == |orig| &&
      var fs := Fates(Verdicts(ss));
      meteors == Survivors(orig, fs, |fs|) && score == score0 + CountScored(fs, |fs|) &&
      States(orig) == AfterSweeps(ss, fs, orig, rotate) && started == started0
    }

    /** The branch of `_updateMeteors` after a sweep that hit nothing: the spawn. */
    method SpawnOnMiss(ghost orig: seq<M.Meteor>, ghost ss: seq<M.MeteorState>, ghost score0: nat, ghost started0: bool,
                       d: M.Draws, heading: Quat, ghost rotate: Rotation)
      requires Valid() && controls.characterLoaded && M.Drawn(d)
      requires SweptAt(orig, ss, score0, started0, rotate) && Ended !in Fates(Verdicts(ss))
      modifies this
      ensures Valid() && Updated(orig, ss, score0, started0, d, heading, rotate)
      ensures var fs := Fates(Verdicts(ss));
        var kept := Survivors(orig, fs, |fs|);
        |meteors| > |kept| ==> fresh(meteors[|kept|])
      ensures unchanged(controls, controls.input, controls.fsm)
      ensures pending == old(pending) && previousRAF == old(previousRAF)
    {
      Spawn(d, heading);
    }

    /**
     * The branch of `_updateMeteors` after a sweep that hit: `_GameOver`.
     * The meteors the sweep took out of the array are deleted already and
     * `_GameOver` deletes the rest, so in the end every one of `orig` is.
     */
    method EndOnHit(ghost orig: seq<M.Meteor>, ghost ss: seq<M.MeteorState>, ghost score0: nat, ghost started0: bool,
                    ghost d: M.Draws, ghost heading: Quat, ghost rotate: Rotation)
      requires Valid() && controls.characterLoaded && M.Drawn(d)
      requires SweptAt(orig, ss, score0, started0, rotate) && Ended in Fates(Verdicts(ss))
      modifies this, (set x | x in orig), controls, controls.input
      ensures Valid() && Updated(orig, ss, score0, started0, d, heading, rotate)
      ensures pending == old(pending) && previousRAF == old(previousRAF)
      ensures controls.Posed() == BuiltCharacter.ResetPose && controls.input.keys == Released
      ensures controls.canJump == old(controls.canJump) && unchanged(controls.fsm) && controls.characterLoaded
    {
      ghost var fs := Fates(Verdicts(ss));
      ghost var after := AfterSweeps(ss, fs, orig, rotate);
      ScoredGone(orig, ss, rotate);
      SurvivorsIn(orig, fs);
      GameOver();
      forall k | 0 <= k < |orig|
        ensures orig[k].State() == M.Deleted(after[k])
      {
        if orig[k] in old(meteors) {
          assert orig[k].State() == M.Deleted(old(orig[k].State()));
        }
      }
    }

    /**
     * One callback of `_animate` at time stamp `t`: take the first stamp
     * as the previous one, request the next frame, update the meteors, and
     * step the controller by the time since the previous frame, `elapsed`
     * milliseconds. The controller steps even after a hit, from the reset
     * pose with the keys released. The environment, the physics world and
     * the renderer are not modelled. The new stamp is stored before the
     * meteors and the controller are updated rather than after; neither
     * reads it, so nothing observable changes.
     */
    method OnFrame(t: real, d: M.Draws, heading: Quat, yaw: Yaw, rotate: Rotation) returns (elapsed: real)
      requires Valid() && pending > 0 && M.Drawn(d)
      modifies this, meteors, controls, controls.input, controls.fsm
      ensures Valid() && previousRAF == Some(t)
      ensures elapsed == t - (if old(previousRAF).None? then t else old(previousRAF).value)
      ensures pending == old(pending) - 1 + (if old(started) then 1 else 0)
      ensures Updated(old(meteors), old(States(meteors)), old(score), old(started), d, heading, rotate)
      ensures var fs := Fates(Verdicts(old(States(meteors))));
        var kept := Survivors(old(meteors), fs, |fs|);
        Ended !in fs && |meteors| > |kept| ==> fresh(meteors[|kept|])
      ensures var hit := Ended in Fates(Verdicts(old(States(meteors))));
        var keys := if hit then Released else old(controls.input.keys);
        var s := BuiltCharacter.Tick(if hit then BuiltCharacter.ResetPose else old(controls.Posed()), keys,
                                     old(controls.canJump), elapsed * 0.001, yaw, rotate);
        controls.Posed() == s.pose && controls.input.keys == s.keys && controls.canJump == s.canJump &&
        controls.fsm.Stepped(keys)
    {
      ghost var orig, ss := meteors, States(meteors);
      var previous := if previousRAF == None then t else previousRAF.value;
      elapsed := t - previous;
      pending, previousRAF := pending - 1, Some(t);
      Animate();
      assert meteors == orig && States(meteors) == ss;
      Frame(elapsed, d, heading, yaw, rotate);
    }

    /** The part of a frame callback after the next frame is requested: the meteors, then the controller. */
    method Frame(elapsed: real, d: M.Draws, heading: Quat, yaw: Yaw, rotate: Rotation)
      requires Valid() && controls.characterLoaded && M.Drawn(d)
      modifies this, meteors, controls, controls.input, controls.fsm
      ensures Valid() && previousRAF == old(previousRAF) && pending == old(pending)
      ensures Updated(old(meteors), old(States(meteors)), old(score), old(started), d, heading, rotate)
      ensures var fs := Fates(Verdicts(old(States(meteors))));
        var kept := Survivors(old(meteors), fs, |fs|);
        Ended !in fs && |meteors| > |kept| ==> fresh(meteors[|kept|])
      ensures var hit := Ended in Fates(Verdicts(old(States(meteors))));
        var keys := if hit then Released else old(controls.input.keys);
        var s := BuiltCharacter.Tick(if hit then BuiltCharacter.ResetPose else old(controls.Posed()), keys,
                                     old(controls.canJump), elapsed * 0.001, yaw, rotate);
        controls.Posed() == s.pose && controls.input.keys == s.keys && controls.canJump == s.canJump &&
        controls.fsm.Stepped(keys)
    {
      ghost var orig, ss := meteors, States(meteors);
      UpdateMeteors(d, heading, rotate);
      StepAfterSweep(elapsed, yaw, rotate, orig, ss, old(score), old(started), d, heading);
    }

    /** `_Step`: the controller's `Update` on the elapsed time in seconds. */
    method Step(elapsedMs: real, yaw: Yaw, rotate: Rotation)
      requires Valid()
      modifies controls, controls.input, controls.fsm
      ensures Valid()
      ensures old(controls.loaded) ==>
        var s := BuiltCharacter.Tick(old(controls.Posed()), old(controls.input.keys), old(controls.canJump),
                                     elapsedMs * 0.001, yaw, rotate);
        controls.Posed() == s.pose && controls.input.keys == s.keys && controls.canJump == s.canJump
      ensures old(controls.loaded) ==> controls.fsm.Stepped(old(controls.input.keys))
      ensures !old(controls.loaded) ==> unchanged(controls, controls.input, controls.fsm)
      ensures controls.playerId == old(controls.playerId)
    {
      controls.Update(elapsedMs * 0.001, yaw, rotate);
    }

    /**
     * `_Step` after the sweep: the ghost parameters name the outcome
     * `Updated` states, and the controller's update leaves it standing.
     */
    method StepAfterSweep(elapsedMs: real, yaw: Yaw, rotate: Rotation, ghost orig: seq<M.Meteor>, ghost ss: seq<M.MeteorState>,
                          ghost score0: nat, ghost started0: bool, ghost d: M.Draws, ghost heading: Quat)
      requires Valid() && |ss| == |orig| && M.Drawn(d)
      requires Updated(orig, ss, score0, started0, d, heading, rotate)
      modifies controls, controls.input, controls.fsm
      ensures Valid() && Updated(orig, ss, score0, started0, d, heading, rotate)
      ensures old(controls.loaded) ==>
        var s := BuiltCharacter.Tick(old(controls.Posed()), old(controls.input.keys), old(controls.canJump),
                                     elapsedMs * 0.001, yaw, rotate);
        controls.Posed() == s.pose && controls.input.keys == s.keys && controls.canJump == s.canJump
      ensures old(controls.loaded) ==> controls.fsm.Stepped(old(controls.input.keys))
    {
      Step(elapsedMs, yaw, rotate);
    }

    /**
     * The meteors and the score as `_updateMeteors` leaves them, from the
     * array `orig` whose meteors were in the states `ss`, the score
     * `score0` and the flag `started0`: every meteor of `orig` in the state
     * the sweep gave it, or deleted after a hit; the crashed ones scored;
     * after a hit the run stopped and the array empty, otherwise the
     * survivors followed by at most one new meteor from the draws `d`.
     */
    ghost predicate Updated(orig: seq<M.Meteor>, ss: seq<M.MeteorState>, score0: nat, started0: bool,
                            d: M.Draws, heading: Quat, rotate: Rotation)
      requires |ss| == |orig| && M.Drawn(d)
      reads this, orig, meteors, controls
    {
      var fs := Fates(Verdicts(ss));
      var after := AfterSweeps(ss, fs, orig, rotate);
      var kept := Survivors(orig, fs, |fs|);
      score == score0 + CountScored(fs, |fs|) &&
      States(orig) == (if Ended in fs then DeletedAll(after) else after) &&
      if Ended in fs then !started && meteors == []
      else
        started == started0 && |kept| <= |meteors| <= |kept| + 1 && meteors[..|kept|] == kept &&
        (|meteors| > |kept| <==> Spawns(|kept|, score)) &&
        (|meteors| > |kept| ==>
           meteors[|kept|].heading == heading && meteors[|kept|].playerId == controls.playerId &&
           meteors[|kept|].radius == M.Radius(d.size) && meteors[|kept|].target == M.Target(d, M.Radius(d.size)) &&
           meteors[|kept|].State() == M.MeteorState(false, false, true, true, M.Start(d), Zero, M.Start(d)))
    }
  }

  /**
   * Where the sweep stands with `o` of the original meteors `orig` looked
   * at and `i` the loop index into the current array `ms`: the fates from
   * `o` on are still those of the verdicts from `o` on, the array holds the
   * survivors so far followed by the meteors not yet reached, and the index
   * points at the first of those.
   */
  ghost predicate Swept<T>(orig: seq<T>, vs: seq<Verdict>, fs: seq<Fate>, o: nat, ms: seq<T>, i: nat) {
    |orig| == |vs| == |fs| && o <= |orig| &&
    fs[o..] == Fates(vs[o..]) &&
    ms == Survivors(orig, fs, o) + orig[o..] &&
    (o < |orig| ==> i == |Survivors(orig, fs, o)|) &&
    (o == |orig| ==> i >= |ms|) &&
    (forall k :: 0 <= k < o ==> fs[k] != Ended)
  }

  /** Before the first turn: nothing looked at, the array as it was. */
  lemma SweptStart<T>(orig: seq<T>, vs: seq<Verdict>, fs: seq<Fate>)
    requires |orig| == |vs| && fs == Fates(vs)
    ensures Swept(orig, vs, fs, 0, orig, 0)
  {
    assert fs[0..] == fs && vs[0..] == vs && orig[0..] == orig;
  }

  /** The meteor under the index is the next one of the original row. */
  lemma Current<T>(orig: seq<T>, vs: seq<Verdict>, fs: seq<Fate>, o: nat, ms: seq<T>, i: nat)
    requires Swept(orig, vs, fs, o, ms, i) && i < |ms|
    ensures o < |orig| && i < |ms| && ms[i] == orig[o]
  {
  }

  /** The end of the loop: every meteor looked at, the array holds exactly the survivors. */
  lemma SweptAll<T>(orig: seq<T>, vs: seq<Verdict>, fs: seq<Fate>, o: nat, ms: seq<T>, i: nat)
    requires Swept(orig, vs, fs, o, ms, i) && i >= |ms|
    ensures o == |orig| && ms == Survivors(orig, fs, |fs|) && Ended !in fs
  {
    assert |ms| == |Survivors(orig, fs, o)| + |orig| - o;
    assert orig[o..] == [];
  }

  /** The loop's step on a meteor that hit: the sweep ends here. */
  lemma HitEnds<T>(orig: seq<T>, vs: seq<Verdict>, fs: seq<Fate>, o: nat, ms: seq<T>, i: nat)
    requires Swept(orig, vs, fs, o, ms, i) && o < |vs| && vs[o] == Hits
    ensures fs[o] == Ended && Ended in fs
    ensures forall k :: o < k < |fs| ==> fs[k] == Unreached
    ensures ms == Survivors(orig, fs, |orig|)
    ensures CountScored(fs, |fs|) == CountScored(fs, o)
  {
    var tail := fs[o..];
    Unfold(vs[o..]);
    assert tail == [Ended] + seq(|vs| - o - 1, _ => Unreached);
    forall k | o < k < |fs|
      ensures fs[k] == Unreached
    {
      assert fs[k] == tail[k - o];
    }
    assert fs[o] == tail[0];
    UnscoredStretchStays(orig, fs, o, |orig|);
    assert orig[o..|orig|] == orig[o..];
  }

  /**
   * The loop's step on a meteor that crashed: scored and spliced out, and
   * the next one, if any, skipped by the index.
   */
  lemma CrashStep<T>(orig: seq<T>, vs: seq<Verdict>, fs: seq<Fate>, o: nat, ms: seq<T>, i: nat) returns (o2: nat)
    requires Swept(orig, vs, fs, o, ms, i) && o < |vs| && vs[o] == Crashes
    ensures i < |ms| && fs[o] == Scored && (o + 1 < |vs| ==> fs[o + 1] == Skipped)
    ensures o2 == if o + 1 < |orig| then o + 2 else o + 1
    ensures Swept(orig, vs, fs, o2, ms[..i] + ms[i + 1..], i + 1)
    ensures CountScored(fs, o2) == CountScored(fs, o) + 1
  {
    o2 := if o + 1 < |orig| then o + 2 else o + 1;
    var front := Survivors(orig, fs, o);
    Splice(front, orig[o..]);
    var ms2 := ms[..i] + ms[i + 1..];
    assert ms2 == front + orig[o + 1..];
    Unfold(vs[o..]);
    assert fs[o] == fs[o..][0];
    if o + 1 < |vs| {
      assert vs[o..][2..] == vs[o + 2..];
      assert fs[o + 1] == fs[o..][1];
      assert fs[o + 2..] == fs[o..][2..];
      assert [orig[o + 1]] + orig[o + 2..] == orig[o + 1..];
      assert Survivors(orig, fs, o + 2) == front + [orig[o + 1]];
    } else {
      assert orig[o + 1..] == [];
      assert fs[o + 1..] == [];
    }
  }

  /** The loop's step on a meteor still flying: kept, and the index moves to the next. */
  lemma FlyStep<T>(orig: seq<T>, vs: seq<Verdict>, fs: seq<Fate>, o: nat, ms: seq<T>, i: nat)
    requires Swept(orig, vs, fs, o, ms, i) && o < |vs| && vs[o] == Flies
    ensures fs[o] == Kept && Swept(orig, vs, fs, o + 1, ms, i + 1)
    ensures CountScored(fs, o + 1) == CountScored(fs, o)
  {
    Unfold(vs[o..]);
    assert fs[o] == fs[o..][0];
    assert vs[o..][1..] == vs[o + 1..];
    assert fs[o + 1..] == fs[o..][1..];
    assert [orig[o]] + orig[o + 1..] == orig[o..];
    assert Survivors(orig, fs, o + 1) == Survivors(orig, fs, o) + [orig[o]];
  }

  /** `splice(i, 1)` at the seam between the part already swept and the rest. */
  lemma Splice<T>(front: seq<T>, rest: seq<T>)
    requires rest != []
    ensures var xs := front + rest; xs[..|front|] + xs[|front| + 1..] == front + rest[1..]
  {
    var xs := front + rest;
    assert xs[..|front|] == front;
    assert xs[|front| + 1..] == rest[1..];
  }
}
