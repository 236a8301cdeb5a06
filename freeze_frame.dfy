/** The Freeze Frame mod's rewrite of hit-object preemption.
  *
  * For every top-level osu! hit object the mod computes, once, a new preemption
  * `TimePreempt + (StartTime + 5) % (BeatLength * BeatDivisor)` and writes that
  * one value into the object and into every nested osu! hit object below it.
  * Times, durations and beat lengths are exact reals here; `%` is C#'s
  * remainder on doubles, which truncates the quotient toward zero, so the
  * remainder takes the sign of the dividend.
  */
module FreezeFrame {

  /** Milliseconds added to a start time before it is reduced modulo the window. */
  const StartTimeOffset: real := 5.0

  /** Bounds, step and default of the "Beat divisor" setting. */
  const MinBeatDivisor: real := 0.25
  const MaxBeatDivisor: real := 5.0
  const BeatDivisorPrecision: real := 0.25
  const DefaultBeatDivisor: real := 1.0

  // ---------------------------------------------------------------------------
  // The beat divisor setting
  // ---------------------------------------------------------------------------

  /** A value the setting can hold: inside its bounds and a whole number of steps. */
  predicate IsBeatDivisor(d: real)
  {
    && MinBeatDivisor <= d <= MaxBeatDivisor
    && (d / BeatDivisorPrecision).Floor as real == d / BeatDivisorPrecision
  }

  /** Every value the setting accepts is one of the twenty values 0.25, 0.5, ..., 5. */
  lemma BeatDivisorSteps(d: real)
    requires IsBeatDivisor(d)
    ensures var k := (d / BeatDivisorPrecision).Floor;
            1 <= k <= 20 && d == k as real * BeatDivisorPrecision
  {
  }

  /** Each of those twenty values, the bounds 0.25 and 5 included, is accepted. */
  lemma BeatDivisorStepsComplete(k: int)
    requires 1 <= k <= 20
    ensures IsBeatDivisor(k as real * BeatDivisorPrecision)
  {
  }

  lemma DefaultBeatDivisorIsValid()
    ensures IsBeatDivisor(DefaultBeatDivisor)
  {
  }

  // ---------------------------------------------------------------------------
  // C#'s remainder on doubles
  // ---------------------------------------------------------------------------

  /** Rounds toward zero, as C# does for the quotient behind `%`. */
  function Truncate(q: real): (t: int)
    ensures q >= 0.0 ==> t as real <= q < t as real + 1.0
    ensures q <= 0.0 ==> t as real - 1.0 < q <= t as real
  {
    if q >= 0.0 then q.Floor else -((-q).Floor)
  }

  /** Multiplying by a positive divisor keeps a value's order against a quotient. */
  lemma CompareQuotient(a: real, x: real, y: real)
    requires y > 0.0
    ensures a <= x / y <==> a * y <= x
    ensures a < x / y <==> a * y < x
  {
    assert (x / y) * y == x;
    assert a * y - x == (a - x / y) * y;
  }

  /** `x % y` in C# for a positive divisor: the remainder left after taking away
    * the whole multiples of `y` that fit in `x` toward zero. */
  function TruncRem(x: real, y: real): (r: real)
    requires y > 0.0
    ensures x >= 0.0 ==> 0.0 <= r < y
    ensures x <= 0.0 ==> -y < r <= 0.0
  {
    var t := Truncate(x / y) as real;
    CompareQuotient(0.0, x, y);
    CompareQuotient(t, x, y);
    CompareQuotient(t + 1.0, x, y);
    CompareQuotient(t - 1.0, x, y);
    x - t * y
  }

  /** A product of a non-negative and a positive real keeps the sign of the first. */
  lemma MulNonNegative(a: real, b: real)
    requires a >= 0.0 && b > 0.0
    ensures a * b >= 0.0
    ensures a > 0.0 ==> a * b > 0.0
  {
  }

  /** Two remainders of `x` that differ by a whole number of `y` and lie on the
    * same side of zero, strictly within `y` of it, are equal. */
  lemma SameSideRemaindersAgree(x: real, y: real, j: int, k: int)
    requires y > 0.0
    requires x >= 0.0 ==> 0.0 <= x - j as real * y < y && 0.0 <= x - k as real * y < y
    requires x <= 0.0 ==> -y < x - j as real * y <= 0.0 && -y < x - k as real * y <= 0.0
    ensures j == k
  {
    var d := (k - j) as real;
    assert (x - j as real * y) - (x - k as real * y) == d * y;
    if j < k {
      MulNonNegative(d - 1.0, y);
    } else if k < j {
      MulNonNegative(-d - 1.0, y);
    }
  }

  /** TruncRem is C#'s remainder and nothing else: any value that differs from
    * `x` by a whole number of `y`, carries the sign of `x` and is smaller than
    * `y` in magnitude is TruncRem(x, y). */
  lemma TruncRemUnique(x: real, y: real, k: int, r: real)
    requires y > 0.0
    requires r == x - k as real * y
    requires x >= 0.0 ==> 0.0 <= r < y
    requires x <= 0.0 ==> -y < r <= 0.0
    ensures r == TruncRem(x, y)
  {
    var t := Truncate(x / y);
    assert TruncRem(x, y) == x - t as real * y;
    SameSideRemaindersAgree(x, y, t, k);
  }

  /** Unlike a floored or Euclidean modulo, the remainder is odd in the dividend. */
  lemma TruncRemOdd(x: real, y: real)
    requires y > 0.0
    ensures TruncRem(-x, y) == -TruncRem(x, y)
  {
    var t := Truncate(x / y);
    assert TruncRem(x, y) == x - t as real * y;
    TruncRemUnique(-x, y, -t, -TruncRem(x, y));
  }

  // ---------------------------------------------------------------------------
  // The preemption formula
  // ---------------------------------------------------------------------------

  /** The beat-aligned window: one beat scaled by the divisor. */
  function BeatWindow(beatLength: real, divisor: real): (w: real)
    requires beatLength > 0.0 && IsBeatDivisor(divisor)
    ensures w > 0.0
  {
    MulNonNegative(divisor, beatLength);
    beatLength * divisor
  }

  /** The window lies between a quarter of a beat and five beats. */
  lemma BeatWindowBounds(beatLength: real, divisor: real)
    requires beatLength > 0.0 && IsBeatDivisor(divisor)
    ensures MinBeatDivisor * beatLength <= BeatWindow(beatLength, divisor) <= MaxBeatDivisor * beatLength
  {
    MulNonNegative(divisor - MinBeatDivisor, beatLength);
    MulNonNegative(MaxBeatDivisor - divisor, beatLength);
  }

  /** For a fixed beat length a larger divisor gives a strictly wider window. */
  lemma BeatWindowMonotonic(beatLength: real, d1: real, d2: real)
    requires beatLength > 0.0 && IsBeatDivisor(d1) && IsBeatDivisor(d2)
    requires d1 < d2
    ensures BeatWindow(beatLength, d1) < BeatWindow(beatLength, d2)
  {
    var gap := d2 - d1;
    MulNonNegative(gap, beatLength);
    assert BeatWindow(beatLength, d2) == BeatWindow(beatLength, d1) + gap * beatLength;
  }

  /** What the mod adds to an object's preemption: `(StartTime + 5) % window`.
    * It lies in [0, window) for objects from 5 ms before the start of the track
    * on, and in (-window, 0] before that. */
  function PreemptOffset(startTime: real, beatLength: real, divisor: real): (r: real)
    requires beatLength > 0.0 && IsBeatDivisor(divisor)
    ensures startTime + StartTimeOffset >= 0.0 ==> 0.0 <= r < BeatWindow(beatLength, divisor)
    ensures startTime + StartTimeOffset <= 0.0 ==> -BeatWindow(beatLength, divisor) < r <= 0.0
  {
    TruncRem(startTime + StartTimeOffset, BeatWindow(beatLength, divisor))
  }

  /** The preemption the mod gives a top-level object and all of its nested
    * objects: never a whole window away from the old one, and never smaller
    * for an object from 5 ms before the start of the track on. */
  function NewPreempt(preempt: real, startTime: real, beatLength: real, divisor: real): (r: real)
    requires beatLength > 0.0 && IsBeatDivisor(divisor)
    ensures startTime + StartTimeOffset >= 0.0 ==> preempt <= r < preempt + BeatWindow(beatLength, divisor)
    ensures startTime + StartTimeOffset < 0.0 ==> preempt - BeatWindow(beatLength, divisor) < r <= preempt
  {
    preempt + PreemptOffset(startTime, beatLength, divisor)
  }

  /** A worked case: a 500 ms beat, divisor 1, an object at 1203 ms with 600 ms
    * preemption ends with 600 + 1208 % 500 = 808 ms. */
  lemma NewPreemptExample()
    ensures NewPreempt(600.0, 1203.0, 500.0, DefaultBeatDivisor) == 808.0
  {
    DefaultBeatDivisorIsValid();
    TruncRemUnique(1208.0, 500.0, 2, 208.0);
  }

  /** An object more than 5 ms before the start of the track loses preemption:
    * the remainder keeps the negative sign of the dividend. */
  lemma NegativeStartShrinksPreempt()
    ensures NewPreempt(600.0, -10.0, 500.0, DefaultBeatDivisor) == 595.0
  {
    DefaultBeatDivisorIsValid();
    TruncRemUnique(-5.0, 500.0, 0, -5.0);
  }

  /** The formula reads the current preemption, so a second application adds the
    * same offset again: the rewrite is idempotent only where the offset is zero. */
  lemma NewPreemptNotIdempotent(preempt: real, startTime: real, beatLength: real, divisor: real)
    requires beatLength > 0.0 && IsBeatDivisor(divisor)
    ensures var once := NewPreempt(preempt, startTime, beatLength, divisor);
            NewPreempt(once, startTime, beatLength, divisor)
              == preempt + 2.0 * PreemptOffset(startTime, beatLength, divisor)
    ensures var once := NewPreempt(preempt, startTime, beatLength, divisor);
            var twice := NewPreempt(once, startTime, beatLength, divisor);
            twice == once <==> PreemptOffset(startTime, beatLength, divisor) == 0.0
  {
  }

  // ---------------------------------------------------------------------------
  // Hit objects
  // ---------------------------------------------------------------------------

  /** A hit object of the beatmap. `isOsu` says whether it is an osu! hit object,
    * the only kind the mod looks at; the others are skipped together with
    * everything nested below them. The nested objects are fixed once the
    * beatmap is built, so they are constant here; only the timing fields change. */
  class HitObject {
    const isOsu: bool
    var startTime: real
    var timePreempt: real
    const nested: seq<HitObject>

    /** Every object reached from this one through osu! hit objects only,
      * excluding this one: what the mod's recursive adjustment visits below it. */
    ghost const osuDescendants: set<HitObject>
    /** Depth of the nesting below this object; it bounds the recursion. */
    ghost const height: nat

    ghost predicate Valid()
      decreases height
    {
      && (forall i | 0 <= i < |nested| :: nested[i].height < height && nested[i].Valid())
      && osuDescendants == OsuReachOf(nested)
    }

    /** This object together with its osu! descendants. */
    ghost function OsuReach(): set<HitObject>
    {
      {this} + osuDescendants
    }

    /** Everything this object reaches through osu! hit objects has preemption `p`. */
    ghost predicate Adjusted(p: real)
      reads osuDescendants`timePreempt, this`timePreempt
    {
      forall x <- OsuReach() :: x.timePreempt == p
    }

    constructor (isOsu: bool, startTime: real, timePreempt: real, nested: seq<HitObject>)
      requires forall i | 0 <= i < |nested| :: nested[i].Valid()
      ensures Valid()
      ensures this.isOsu == isOsu && this.startTime == startTime
      ensures this.timePreempt == timePreempt && this.nested == nested
      ensures osuDescendants == OsuReachOf(nested)
    {
      this.isOsu := isOsu;
      this.startTime := startTime;
      this.timePreempt := timePreempt;
      this.nested := nested;
      this.osuDescendants := OsuReachOf(nested);
      this.height := MaxHeight(nested) + 1;
    }

    /** The recursive local function of ApplyToBeatmap: give this object and every
      * nested osu! hit object, at any depth, the preemption `newPreempt`. */
    method ApplyFadeInAdjustment(newPreempt: real)
      requires Valid() && isOsu
      modifies OsuReach()`timePreempt
      decreases height
      ensures Adjusted(newPreempt)
    {
      timePreempt := newPreempt;
      // The objects written so far: this one and the trees of the osu! children before i.
      ghost var done := {this};
      for i := 0 to |nested|
        invariant forall x <- done :: x.timePreempt == newPreempt
        invariant done == {this} + OsuReachOf(nested[..i])
      {
        var child := nested[i];
        assert nested[..i + 1][..i] == nested[..i];
        if child.isOsu {
          NestedReach(i);
          child.ApplyFadeInAdjustment(newPreempt);
          done := done + child.OsuReach();
        }
      }
      assert nested[..|nested|] == nested;
    }

    /** An osu! child is itself well formed, shallower, and inside this object's reach. */
    lemma NestedReach(i: int)
      requires Valid() && 0 <= i < |nested| && nested[i].isOsu
      ensures nested[i].Valid() && nested[i].height < height
      ensures nested[i].OsuReach() <= OsuReach()
    {
      ReachIncludes(nested, i);
    }
  }

  /** Everything the osu! hit objects among `objects` reach. */
  ghost function OsuReachOf(objects: seq<HitObject>): set<HitObject>
  {
    if objects == [] then {}
    else
      var last := objects[|objects| - 1];
      OsuReachOf(objects[..|objects| - 1]) + (if last.isOsu then last.OsuReach() else {})
  }

  /** Each osu! hit object's reach is part of the reach of a sequence holding it. */
  lemma {:induction false} ReachIncludes(objects: seq<HitObject>, i: int)
    requires 0 <= i < |objects| && objects[i].isOsu
    ensures objects[i].OsuReach() <= OsuReachOf(objects)
  {
    if i < |objects| - 1 {
      var init := objects[..|objects| - 1];
      assert init[i] == objects[i];
      ReachIncludes(init, i);
    }
  }

  /** Only osu! hit objects are reached: an object of another kind is skipped
    * together with everything nested below it. */
  lemma ReachIsOsu(objects: seq<HitObject>)
    requires forall i | 0 <= i < |objects| :: objects[i].Valid()
    ensures forall x <- OsuReachOf(objects) :: x.isOsu
  {
    ReachIsOsuBelow(objects, MaxHeight(objects));
  }

  /** ReachIsOsu, by induction on the nesting depth and then on the length. */
  lemma {:induction false} ReachIsOsuBelow(objects: seq<HitObject>, bound: nat)
    requires forall i | 0 <= i < |objects| :: objects[i].Valid() && objects[i].height <= bound
    ensures forall x <- OsuReachOf(objects) :: x.isOsu
    decreases bound, |objects|
  {
    if objects != [] {
      var init := objects[..|objects| - 1];
      var last := objects[|objects| - 1];
      assert forall i | 0 <= i < |init| :: init[i] == objects[i];
      ReachIsOsuBelow(init, bound);
      if last.isOsu && last.nested != [] {
        assert last.nested[0].height < last.height;
        ReachIsOsuBelow(last.nested, bound - 1);
      }
    }
  }

  /** The greatest nesting depth among `objects`. */
  ghost function MaxHeight(objects: seq<HitObject>): (h: nat)
    ensures forall i | 0 <= i < |objects| :: objects[i].height <= h
  {
    if objects == [] then 0
    else
      var rest := MaxHeight(objects[1..]);
      assert forall i | 1 <= i < |objects| :: objects[i] == objects[1..][i - 1];
      if objects[0].height > rest then objects[0].height else rest
  }

  // ---------------------------------------------------------------------------
  // The beatmap pass
  // ---------------------------------------------------------------------------

  /** Distinct top-level osu! hit objects share no object the adjustment visits:
    * each beatmap object exclusively owns what is nested below it. */
  ghost predicate OwnDisjointTrees(hitObjects: seq<HitObject>)
  {
    forall i, j | 0 <= i < j < |hitObjects| && hitObjects[i].isOsu && hitObjects[j].isOsu ::
      hitObjects[i].OsuReach() !! hitObjects[j].OsuReach()
  }

  /** The body of ApplyToBeatmap's loop for one osu! hit object: compute its new
    * preemption once, from its own start time, then write it into the object and
    * everything the object reaches. */
  method AdjustTree(obj: HitObject, beatLengthAt: real -> real, beatDivisor: real)
    requires IsBeatDivisor(beatDivisor)
    requires forall t :: beatLengthAt(t) > 0.0
    requires obj.Valid() && obj.isOsu
    modifies obj.OsuReach()`timePreempt
    ensures obj.Adjusted(NewPreempt(old(obj.timePreempt), obj.startTime, beatLengthAt(obj.startTime), beatDivisor))
  {
    var beatLength := beatLengthAt(obj.startTime);
    var newPreempt := NewPreempt(obj.timePreempt, obj.startTime, beatLength, beatDivisor);
    obj.ApplyFadeInAdjustment(newPreempt);
  }

  /** ApplyToBeatmap: for each top-level osu! hit object, in order, compute the new
    * preemption from its own start time, the beat length in force there and the
    * divisor, then write it into the object and everything the object reaches.
    * `beatLengthAt` stands for the beat length of the timing point in force at a
    * time. */
  method ApplyToBeatmap(hitObjects: seq<HitObject>, beatLengthAt: real -> real, beatDivisor: real)
    requires IsBeatDivisor(beatDivisor)
    requires forall t :: beatLengthAt(t) > 0.0
    requires forall i | 0 <= i < |hitObjects| :: hitObjects[i].Valid()
    requires OwnDisjointTrees(hitObjects)
    modifies OsuReachOf(hitObjects)`timePreempt
    ensures forall i | 0 <= i < |hitObjects| && hitObjects[i].isOsu ::
              var o := hitObjects[i];
              o.Adjusted(NewPreempt(old(o.timePreempt), o.startTime, beatLengthAt(o.startTime), beatDivisor))
  {
    for k := 0 to |hitObjects|
      invariant forall i | 0 <= i < k && hitObjects[i].isOsu ::
                  var o := hitObjects[i];
                  o.Adjusted(NewPreempt(old(o.timePreempt), o.startTime, beatLengthAt(o.startTime), beatDivisor))
      invariant forall i | k <= i < |hitObjects| && hitObjects[i].isOsu ::
                  hitObjects[i].timePreempt == old(hitObjects[i].timePreempt)
    {
      var obj := hitObjects[k];
      if obj.isOsu {
        ReachIncludes(hitObjects, k);
        label Before:
        AdjustTree(obj, beatLengthAt, beatDivisor);
        // The trees adjusted earlier are disjoint from this one, so they keep their values.
        forall i | 0 <= i <= k && hitObjects[i].isOsu
          ensures var o := hitObjects[i];
                  o.Adjusted(NewPreempt(old(o.timePreempt), o.startTime, beatLengthAt(o.startTime), beatDivisor))
        {
          if i < k {
            var o := hitObjects[i];
            var p := NewPreempt(old(o.timePreempt), o.startTime, beatLengthAt(o.startTime), beatDivisor);
            assert o.OsuReach() !! obj.OsuReach();
            assert old@Before(o.Adjusted(p));
          }
        }
      }
    }
  }

  /** A small tree: an osu! hit object at 1203 ms with 600 ms preemption, holding
    * an osu! hit object at 1500 ms and an object of another kind, both with 450 ms. */
  method BuildSlider() returns (slider: HitObject, tick: HitObject, other: HitObject)
    ensures fresh(slider) && fresh(tick) && fresh(other)
    ensures slider.Valid() && slider.isOsu && slider.OsuReach() == {slider, tick}
    ensures slider.startTime == 1203.0 && slider.timePreempt == 600.0
    ensures tick.timePreempt == 450.0 && other.timePreempt == 450.0
    ensures other != slider && other != tick
  {
    tick := new HitObject(true, 1500.0, 450.0, []);
    other := new HitObject(false, 1500.0, 450.0, []);
    slider := new HitObject(true, 1203.0, 600.0, [tick, other]);
    assert [tick, other][..1] == [tick];
    assert OsuReachOf([tick]) == {tick};
  }

  /** The worked case on that tree under a 500 ms beat and divisor 1. The nested
    * osu! object takes its ancestor's value, not one derived from its own start
    * time; the other object keeps its value; a second pass adds the offset again. */
  method NestedAdjustmentExample() returns (head: real, nestedOsu: real, nestedOther: real, reapplied: real)
    ensures head == 808.0 && nestedOsu == 808.0
    ensures nestedOther == 450.0
    ensures reapplied == 1016.0
  {
    var slider, tick, other := BuildSlider();
    NewPreemptExample();
    NewPreemptNotIdempotent(600.0, 1203.0, 500.0, DefaultBeatDivisor);
    var timing := t => 500.0;
    var beatmap := [slider];
    assert beatmap[..0] == [];
    assert OsuReachOf(beatmap) == {slider, tick};
    ApplyToBeatmap(beatmap, timing, DefaultBeatDivisor);
    assert beatmap[0].Adjusted(NewPreempt(600.0, 1203.0, timing(1203.0), DefaultBeatDivisor));
    head, nestedOsu, nestedOther := slider.timePreempt, tick.timePreempt, other.timePreempt;
    ApplyToBeatmap(beatmap, timing, DefaultBeatDivisor);
    assert beatmap[0].Adjusted(NewPreempt(808.0, 1203.0, timing(1203.0), DefaultBeatDivisor));
    reapplied := slider.timePreempt;
  }

  /** An osu! hit object nested below an object of another kind is never
    * reached, so the pass leaves its preemption alone. */
  method SkippedSubtreeExample() returns (kept: real)
    ensures kept == 450.0
  {
    var tick := new HitObject(true, 1500.0, 450.0, []);
    var parent := new HitObject(false, 1203.0, 600.0, [tick]);
    var beatmap := [parent];
    assert beatmap[..0] == [];
    assert OsuReachOf(beatmap) == {};
    DefaultBeatDivisorIsValid();
    ApplyToBeatmap(beatmap, t => 500.0, DefaultBeatDivisor);
    kept := tick.timePreempt;
  }
}
