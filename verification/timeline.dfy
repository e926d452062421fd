/** Time intervals and step-function tracks.

    This is the part of the renderer's interval-collection property that the
    track builders depend on: an interval carries a start, a stop, two
    inclusion flags and a payload; a collection is the sequence of intervals
    in the order they were added; a lookup returns the payload holding at a
    given time, or nothing. */
module Timeline {
  import opened Wrappers

  /** An absolute instant, already parsed from its ISO-8601 text. */
  type Time = int

  datatype Interval<D> = Interval(start: Time, stop: Time, isStartIncluded: bool, isStopIncluded: bool, data: D)

  /** The interval shape every track builder uses: start included, stop excluded. */
  function HalfOpen<D>(start: Time, stop: Time, data: D): Interval<D>
  {
    Interval(start, stop, true, false, data)
  }

  predicate Contains<D>(iv: Interval<D>, t: Time)
  {
    && (if iv.isStartIncluded then iv.start <= t else iv.start < t)
    && (if iv.isStopIncluded then t <= iv.stop else t < iv.stop)
  }

  /** The payload of the first interval of `ivs` that contains `t`, or None
      ("no data") when no interval does. */
  function ValueAt<D>(ivs: seq<Interval<D>>, t: Time): (r: Option<D>)
    ensures r.None? <==> forall i :: 0 <= i < |ivs| ==> !Contains(ivs[i], t)
    ensures r.Some? ==> exists i :: 0 <= i < |ivs| && Contains(ivs[i], t) && ivs[i].data == r.value
  {
    if |ivs| == 0 then None
    else if Contains(ivs[0], t) then Some(ivs[0].data)
    else
      var r := ValueAt(ivs[1..], t);
      assert forall i :: 1 <= i < |ivs| ==> ivs[i] == ivs[1..][i - 1];
      r
  }

  /** The lookup returns the payload of the first containing interval. */
  lemma {:induction false} ValueAtFirst<D>(ivs: seq<Interval<D>>, t: Time, i: nat)
    requires i < |ivs| && Contains(ivs[i], t)
    requires forall j :: 0 <= j < i ==> !Contains(ivs[j], t)
    ensures ValueAt(ivs, t) == Some(ivs[i].data)
    decreases i
  {
    if i > 0 {
      assert !Contains(ivs[0], t);
      assert ivs[1..][i - 1] == ivs[i];
      ValueAtFirst(ivs[1..], t, i - 1);
    }
  }

  /** A timestamped reading carrying a payload. */
  datatype Sample<D> = Sample(time: Time, value: D)

  /** Timestamps strictly increase along the sequence. */
  ghost predicate Increasing<D>(s: seq<Sample<D>>)
  {
    forall i, j :: 0 <= i < j < |s| ==> s[i].time < s[j].time
  }

  /** The step function over `s`: sample i's value holds on [t_i, t_(i+1)),
      start included and stop excluded, one interval per sample in sample
      order; the last sample has no successor and yields no interval. */
  ghost predicate StepTrack<D>(ivs: seq<Interval<D>>, s: seq<Sample<D>>)
  {
    && |ivs| == (if |s| == 0 then 0 else |s| - 1)
    && forall i :: 0 <= i < |ivs| ==> ivs[i] == HalfOpen(s[i].time, s[i + 1].time, s[i].value)
  }

  /** Each interval stops where the next one starts. */
  ghost predicate Abutting<D>(ivs: seq<Interval<D>>)
  {
    forall i :: 0 <= i < |ivs| - 1 ==> ivs[i].stop == ivs[i + 1].start
  }

  /** The source's forEach-with-index loop over `s`, from position `index` on:
      sample `index` yields an interval only when a sample follows it, and
      that interval stops at the follower's time. */
  function StepsFrom<D>(s: seq<Sample<D>>, index: nat): (r: seq<Interval<D>>)
    requires index <= |s|
    ensures |r| == if index + 1 < |s| then |s| - 1 - index else 0
    ensures forall k :: 0 <= k < |r| ==>
      r[k] == HalfOpen(s[index + k].time, s[index + k + 1].time, s[index + k].value)
    decreases |s| - index
  {
    if index == |s| then []
    else
      var added := if index + 1 < |s| then [HalfOpen(s[index].time, s[index + 1].time, s[index].value)] else [];
      added + StepsFrom(s, index + 1)
  }

  /** The step-function track built from `s`. */
  function Steps<D>(s: seq<Sample<D>>): (r: seq<Interval<D>>)
    ensures StepTrack(r, s)
  {
    StepsFrom(s, 0)
  }

  /** Consecutive intervals of a step track abut, and their starts follow the
      sample order. */
  lemma StepTrackAbuts<D>(ivs: seq<Interval<D>>, s: seq<Sample<D>>)
    requires StepTrack(ivs, s)
    ensures Abutting(ivs)
    ensures forall i :: 0 <= i < |ivs| ==> ivs[i].start == s[i].time && ivs[i].data == s[i].value
  {
    forall i | 0 <= i < |ivs| - 1
      ensures ivs[i].stop == ivs[i + 1].start
    {
      assert ivs[i] == HalfOpen(s[i].time, s[i + 1].time, s[i].value);
      assert ivs[i + 1] == HalfOpen(s[i + 1].time, s[i + 2].time, s[i + 1].value);
    }
    forall i | 0 <= i < |ivs|
      ensures ivs[i].start == s[i].time && ivs[i].data == s[i].value
    {
      assert ivs[i] == HalfOpen(s[i].time, s[i + 1].time, s[i].value);
    }
  }

  /** Interval i of a step track holds at some instant exactly when sample i
      is strictly earlier than sample i+1; out-of-order or duplicate
      timestamps are passed through and give intervals that hold nowhere. */
  lemma StepIntervalNonEmpty<D>(ivs: seq<Interval<D>>, s: seq<Sample<D>>, i: nat)
    requires StepTrack(ivs, s) && i < |ivs|
    ensures (exists t :: Contains(ivs[i], t)) <==> s[i].time < s[i + 1].time
  {
    if s[i].time < s[i + 1].time {
      assert Contains(ivs[i], s[i].time);
    }
  }

  /** Over increasing timestamps no instant lies in two intervals. */
  lemma StepTrackDisjoint<D>(ivs: seq<Interval<D>>, s: seq<Sample<D>>)
    requires StepTrack(ivs, s) && Increasing(s)
    ensures forall i, j, t :: 0 <= i < j < |ivs| && Contains(ivs[i], t) ==> !Contains(ivs[j], t)
  {
    forall i, j, t | 0 <= i < j < |ivs| && Contains(ivs[i], t)
      ensures !Contains(ivs[j], t)
    {
      assert ivs[i] == HalfOpen(s[i].time, s[i + 1].time, s[i].value);
      assert ivs[j] == HalfOpen(s[j].time, s[j + 1].time, s[j].value);
      if i + 1 < j {
        assert s[i + 1].time < s[j].time;
      }
    }
  }

  /** Over increasing timestamps, a time in [t_i, t_(i+1)) looks up sample
      i's value; at t_(i+1) itself the next interval takes over. */
  lemma StepTrackValueInside<D>(ivs: seq<Interval<D>>, s: seq<Sample<D>>, i: nat, t: Time)
    requires StepTrack(ivs, s) && Increasing(s)
    requires i + 1 < |s| && s[i].time <= t < s[i + 1].time
    ensures ValueAt(ivs, t) == Some(s[i].value)
  {
    forall j | 0 <= j < i
      ensures !Contains(ivs[j], t)
    {
      assert ivs[j] == HalfOpen(s[j].time, s[j + 1].time, s[j].value);
      if j + 1 < i {
        assert s[j + 1].time < s[i].time;
      }
    }
    ValueAtFirst(ivs, t, i);
  }

  /** Over increasing timestamps, a time before the first sample or at or
      after the last one looks up nothing. */
  lemma StepTrackValueOutside<D>(ivs: seq<Interval<D>>, s: seq<Sample<D>>, t: Time)
    requires StepTrack(ivs, s) && Increasing(s)
    requires |s| == 0 || t < s[0].time || s[|s| - 1].time <= t
    ensures ValueAt(ivs, t) == None
  {
    forall i | 0 <= i < |ivs|
      ensures !Contains(ivs[i], t)
    {
      assert ivs[i] == HalfOpen(s[i].time, s[i + 1].time, s[i].value);
      if 0 < i {
        assert s[0].time < s[i].time;
      }
      if i + 1 < |s| - 1 {
        assert s[i + 1].time < s[|s| - 1].time;
      }
    }
  }

  /** If no interval of a step track holds at t and sample 0 is not later
      than t, then no sample up to k is later than t. */
  lemma {:induction false} NoGapUpTo<D>(ivs: seq<Interval<D>>, s: seq<Sample<D>>, t: Time, k: nat)
    requires StepTrack(ivs, s) && k < |s|
    requires s[0].time <= t
    requires forall i :: 0 <= i < |ivs| ==> !Contains(ivs[i], t)
    ensures s[k].time <= t
    decreases k
  {
    if k > 0 {
      NoGapUpTo(ivs, s, t, k - 1);
      assert !Contains(ivs[k - 1], t);
    }
  }

  /** A step track has no gaps: every time in [t_0, t_(n-1)) looks up some
      value. */
  lemma StepTrackCovers<D>(ivs: seq<Interval<D>>, s: seq<Sample<D>>, t: Time)
    requires StepTrack(ivs, s)
    requires 0 < |s| && s[0].time <= t < s[|s| - 1].time
    ensures ValueAt(ivs, t).Some?
  {
    if ValueAt(ivs, t).None? {
      NoGapUpTo(ivs, s, t, |s| - 1);
      assert false;
    }
  }
}
