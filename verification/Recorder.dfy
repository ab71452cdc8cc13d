/** The bounded in-memory recording of an operation: it keeps every sample until it is full, then
    drops every other point and records half as often. */
module Recorder {
  import opened Conditions

  datatype Sample = Sample(t: real, values: map<Name, real>)

  /** s[::2] */
  function EveryOther<T>(s: seq<T>): (r: seq<T>)
    ensures |r| == (|s| + 1) / 2 && forall i :: 0 <= i < |r| ==> r[i] == s[2 * i]
  {
    seq((|s| + 1) / 2, i requires 0 <= i < (|s| + 1) / 2 => s[2 * i])
  }

  /** The raw numbers (from 1) of the points kept, with the stride in force after `raw` samples. */
  ghost predicate Spaced(kept: seq<nat>, stride: nat, raw: nat) {
    && stride >= 1 && (raw == 0 <==> kept == []) && (raw == 0 ==> stride == 1) && (stride == 1 ==> |kept| == raw)
    && (forall i :: 0 <= i < |kept| - 1 ==> kept[i] < kept[i + 1] <= kept[i] + stride)
    && (kept != [] ==>
          var last := kept[|kept| - 1];
          && kept[0] == 1 && stride * (|kept| - 1) <= last <= raw
          && forall m :: last < m <= raw ==> m % stride != 0)
  }

  ghost predicate Spread(kept: seq<nat>, stride: nat, raw: nat, maxPoints: nat) {
    stride >= 1 && Spaced(kept, stride, raw) && |kept| <= maxPoints && (stride > 1 ==> |kept| >= maxPoints / 2 + 1)
  }

  lemma StrideHasAMultiple(from: nat, stride: nat) returns (m: nat)
    requires stride >= 1
    ensures from < m <= from + stride && m % stride == 0
  {
    m := from + stride - from % stride;
    var q := from / stride;
    assert from == q * stride + from % stride;
    assert m == (q + 1) * stride;
    MultipleOf(q + 1, stride);
  }

  lemma MultipleOf(k: nat, n: nat)
    requires n >= 1
    ensures (k * n) % n == 0
  {
    var a := k * n;
    var q, r := a / n, a % n;
    assert a == q * n + r;
    if q < k {
      ProductGrows(n, q + 1, k);
    } else if q > k {
      ProductGrows(n, k + 1, q);
    }
  }

  /** What the spread means: the gaps and the unrecorded tail are bounded by the stride, and the
      stride by how much was offered. */
  lemma SpreadBounds(kept: seq<nat>, stride: nat, raw: nat, maxPoints: nat)
    requires Spread(kept, stride, raw, maxPoints) && maxPoints % 2 == 0
    ensures raw > 0 ==> kept != [] && raw - kept[|kept| - 1] < stride
    ensures stride > 1 ==> stride * maxPoints <= 2 * raw
  {
    if raw > 0 {
      var last := kept[|kept| - 1];
      if raw - last >= stride {
        var m := StrideHasAMultiple(last, stride);
        assert false;
      }
      if stride > 1 {
        ProductGrows(stride, maxPoints / 2, |kept| - 1);
        assert stride * maxPoints == 2 * (stride * (maxPoints / 2));
      }
    }
  }

  lemma ProductGrows(n: nat, a: int, b: int)
    requires a <= b
    ensures n * a <= n * b
  {
  }

  /** A sample that is not a multiple of the stride only lengthens the tail. */
  lemma SkipOne(kept: seq<nat>, stride: nat, raw: nat)
    requires Spaced(kept, stride, raw) && (raw + 1) % stride != 0
    ensures Spaced(kept, stride, raw + 1)
  {
    assert stride > 1;
  }

  lemma KeepOne(kept: seq<nat>, stride: nat, raw: nat)
    requires Spaced(kept, stride, raw) && (raw + 1) % stride == 0
    ensures Spaced(kept + [raw + 1], stride, raw + 1)
  {
    if kept == [] {
      assert stride == 1;
    } else {
      var last := kept[|kept| - 1];
      var m := StrideHasAMultiple(last, stride);
      assert m > raw;
      NextMultiple(raw + 1, stride, |kept| - 1);
      assert stride * (|kept| - 1) + stride == stride * |kept|;
    }
  }

  /** A multiple above n times the stride is at least n + 1 times the stride. */
  lemma NextMultiple(m: nat, stride: nat, n: nat)
    requires stride >= 1 && m % stride == 0 && m > stride * n
    ensures m >= stride * n + stride
  {
    var q := m / stride;
    assert m == q * stride;
    if q <= n {
      ProductGrows(stride, q, n);
    } else {
      ProductGrows(stride, n + 1, q);
    }
  }

  /** Dropping every other of an odd number of points, the newest among those kept, doubles the stride. */
  lemma Halve(kept: seq<nat>, stride: nat, raw: nat)
    requires Spaced(kept, stride, raw) && |kept| % 2 == 1 && kept[|kept| - 1] == raw
    ensures Spaced(EveryOther(kept), 2 * stride, raw)
  {
    var half := EveryOther(kept);
    forall i | 0 <= i < |half| - 1 ensures half[i] < half[i + 1] <= half[i] + 2 * stride {
      assert half[i] == kept[2 * i] && half[i + 1] == kept[2 * i + 1 + 1];
      assert kept[2 * i] < kept[2 * i + 1] <= kept[2 * i] + stride;
      assert kept[2 * i + 1] < kept[2 * i + 1 + 1] <= kept[2 * i + 1] + stride;
    }
    assert |kept| - 1 == 2 * (|half| - 1);
    Regroup(stride, |half| - 1);
  }

  lemma Regroup(a: nat, n: int)
    ensures 2 * a * n == a * (2 * n)
  {
  }

  /** The time axis and every channel, read off the samples that were offered. */
  ghost predicate AxisOf(unixTime: seq<real>, kept: seq<nat>, offered: seq<Sample>) {
    && |unixTime| == |kept|
    && forall i :: 0 <= i < |kept| ==> 1 <= kept[i] <= |offered| && unixTime[i] == offered[kept[i] - 1].t
  }

  ghost predicate ChannelOf(series: seq<real>, name: Name, kept: seq<nat>, offered: seq<Sample>) {
    && |series| == |kept|
    && forall i :: 0 <= i < |kept| ==> (
         && 1 <= kept[i] <= |offered|
         && name in offered[kept[i] - 1].values && series[i] == offered[kept[i] - 1].values[name])
  }

  ghost predicate AllChannels(channels: map<Name, seq<real>>, kept: seq<nat>, offered: seq<Sample>) {
    forall name :: name in channels ==> ChannelOf(channels[name], name, kept, offered)
  }

  lemma OfferOneMore(unixTime: seq<real>, channels: map<Name, seq<real>>, kept: seq<nat>, offered: seq<Sample>,
          sample: Sample)
    requires AxisOf(unixTime, kept, offered)
    ensures AxisOf(unixTime, kept, offered + [sample])
    ensures AllChannels(channels, kept, offered + [sample]) <==> AllChannels(channels, kept, offered)
  {
    forall name | name in channels
      ensures ChannelOf(channels[name], name, kept, offered + [sample]) <==>
        ChannelOf(channels[name], name, kept, offered)
    {
    }
  }

  lemma ChannelGrows(series: seq<real>, name: Name, kept: seq<nat>, offered: seq<Sample>)
    requires offered != [] && name in offered[|offered| - 1].values && ChannelOf(series, name, kept, offered)
    ensures ChannelOf(series + [offered[|offered| - 1].values[name]], name, kept + [|offered|], offered)
  {
  }

  /** The channels after one more recorded sample. */
  function Extended(channels: map<Name, seq<real>>, values: map<Name, real>): map<Name, seq<real>> {
    map name | name in values :: (if name in channels then channels[name] else []) + [values[name]]
  }

  lemma PointGrows(unixTime: seq<real>, channels: map<Name, seq<real>>, kept: seq<nat>, offered: seq<Sample>)
    requires offered != [] && AxisOf(unixTime, kept, offered)
    requires channels == map[] || offered[|offered| - 1].values.Keys == channels.Keys
    ensures AxisOf(unixTime + [offered[|offered| - 1].t], kept + [|offered|], offered)
    ensures AllChannels(channels, kept, offered) ==>
      (channels == map[] ==> kept == [] || offered[|offered| - 1].values == map[]) ==>
      AllChannels(Extended(channels, offered[|offered| - 1].values), kept + [|offered|], offered)
  {
    var values := offered[|offered| - 1].values;
    if AllChannels(channels, kept, offered) && (channels == map[] ==> kept == [] || values == map[]) {
      var extended := Extended(channels, values);
      forall name | name in extended ensures ChannelOf(extended[name], name, kept + [|offered|], offered) {
        ChannelGrows(if name in channels then channels[name] else [], name, kept, offered);
      }
    }
  }

  function Halved(channels: map<Name, seq<real>>): map<Name, seq<real>> {
    map name | name in channels :: EveryOther(channels[name])
  }

  lemma PointsHalve(unixTime: seq<real>, channels: map<Name, seq<real>>, kept: seq<nat>, offered: seq<Sample>)
    requires AxisOf(unixTime, kept, offered)
    ensures AxisOf(EveryOther(unixTime), EveryOther(kept), offered)
    ensures AllChannels(channels, kept, offered) ==> AllChannels(Halved(channels), EveryOther(kept), offered)
  {
    if AllChannels(channels, kept, offered) {
      forall name | name in Halved(channels)
        ensures ChannelOf(Halved(channels)[name], name, EveryOther(kept), offered) {
        assert ChannelOf(channels[name], name, kept, offered);
      }
    }
  }

  class OperationRecording {
    const maxPoints: nat
    var unixTime: seq<real>
    var channels: map<Name, seq<real>>
    var stride: nat
    var rawCount: nat
    ghost var offered: seq<Sample>
    ghost var kept: seq<nat>

    ghost predicate Valid()
      reads this
    {
      && maxPoints >= 2 && maxPoints % 2 == 0
      && rawCount == |offered| && Spread(kept, stride, rawCount, maxPoints) && AxisOf(unixTime, kept, offered)
    }

    /** Every channel runs along the time axis and holds the values that were offered there. */
    ghost predicate InSync()
      reads this`channels, this`kept, this`offered
    {
      AllChannels(channels, kept, offered)
    }

    /** maxPoints is 4000 in the recorder of the operations. */
    constructor (maxPoints: nat)
      requires maxPoints >= 2 && maxPoints % 2 == 0
      ensures Valid() && InSync() && offered == [] && channels == map[] && this.maxPoints == maxPoints
    {
      this.maxPoints := maxPoints;
      unixTime, channels, stride, rawCount := [], map[], 1, 0;
      offered, kept := [], [];
    }

    /** Channels would be created only now, behind a time axis that has already begun. */
    ghost predicate StartsLate(sample: Sample)
      reads this
    {
      channels == map[] && unixTime != [] && sample.values != map[] && stride >= 1 && (rawCount + 1) % stride == 0
    }

    /** Record one sample; a change of the channel names is an error and records nothing. The one
        way out of step: points without any channel, then a recorded one with channels. */
    method RecordSample(sample: Sample) returns (ok: bool)
      requires Valid()
      modifies this
      ensures Valid()
      ensures ok <==> old(channels) == map[] || sample.values.Keys == old(channels).Keys
      ensures !ok ==> unchanged(this)
      ensures ok ==> offered == old(offered) + [sample]
      ensures ok && old(InSync()) ==> (InSync() <==> !old(StartsLate(sample)))
    {
      hide Spaced, AxisOf, AllChannels, ChannelOf;
      if channels != map[] && sample.values.Keys != channels.Keys {
        return false;
      }
      ok := true;
      OfferOneMore(unixTime, channels, kept, offered, sample);
      rawCount := rawCount + 1;
      offered := offered + [sample];
      AxisLength(unixTime, kept, offered);
      if rawCount % stride != 0 {
        SkipOne(kept, stride, rawCount - 1);
        return;
      }
      Keep(sample);
      ghost var recorded := channels;
      if |unixTime| > maxPoints {
        Decimate();
      }
      if old(StartsLate(sample)) {
        ShortChannel(channels, kept, offered);
      }
    }

    /** Append the newest sample to the time axis and to every channel. */
    method Keep(sample: Sample)
      requires rawCount == |offered| > 0 && offered[|offered| - 1] == sample && AxisOf(unixTime, kept, offered)
      requires Spaced(kept, stride, rawCount - 1) && rawCount % stride == 0
      requires channels == map[] || sample.values.Keys == channels.Keys
      modifies this`unixTime, this`channels, this`kept
      ensures kept == old(kept) + [rawCount] && Spaced(kept, stride, rawCount) && AxisOf(unixTime, kept, offered)
      ensures |unixTime| == |kept|
      ensures old(InSync()) && (old(channels) == map[] ==> old(kept) == [] || sample.values == map[]) ==> InSync()
      ensures channels == Extended(old(channels), sample.values)
    {
      hide Spaced, AllChannels, ChannelOf;
      KeepOne(kept, stride, rawCount - 1);
      PointGrows(unixTime, channels, kept, offered);
      channels := Extended(channels, sample.values);
      unixTime := unixTime + [sample.t];
      kept := kept + [rawCount];
    }

    /** Drop every other point of the time axis and of every channel, and record half as often. */
    method Decimate()
      requires maxPoints >= 2 && maxPoints % 2 == 0 && |kept| == maxPoints + 1
      requires kept[maxPoints] == rawCount == |offered|
      requires Spaced(kept, stride, rawCount) && AxisOf(unixTime, kept, offered)
      modifies this`unixTime, this`channels, this`kept, this`stride
      ensures Valid() && kept == EveryOther(old(kept))
      ensures unixTime == EveryOther(old(unixTime)) && stride == 2 * old(stride)
      ensures channels == Halved(old(channels))
      ensures old(InSync()) ==> InSync()
    {
      hide Spaced, AxisOf, AllChannels, ChannelOf;
      Halve(kept, stride, rawCount);
      PointsHalve(unixTime, channels, kept, offered);
      unixTime := EveryOther(unixTime);
      channels := Halved(channels);
      kept := EveryOther(kept);
      stride := 2 * stride;
    }
  }

  /** A first sample without any channel, then one with a channel: the channel is one value short of the
      time axis from then on. */
  method LateChannelIsOutOfStep() returns (r: OperationRecording)
    ensures r.Valid() && !r.InSync() && r.offered == [Sample(0.0, map[]), Sample(1.0, map["level" := 50.0])]
  {
    r := new OperationRecording(4000);
    var first := r.RecordSample(Sample(0.0, map[]));
    assert r.kept == [1];
    assert forall name :: name in r.channels ==> !ChannelOf(r.channels[name], name, r.kept, r.offered);
    var late := Sample(1.0, map["level" := 50.0]);
    assert "level" in late.values;
    assert r.StartsLate(late);
    var second := r.RecordSample(late);
  }

  lemma AxisLength(unixTime: seq<real>, kept: seq<nat>, offered: seq<Sample>)
    requires AxisOf(unixTime, kept, offered)
    ensures |unixTime| == |kept|
  {
  }

  lemma ShortChannel(channels: map<Name, seq<real>>, kept: seq<nat>, offered: seq<Sample>)
    requires |kept| >= 2 && exists name :: name in channels && |channels[name]| == 1
    ensures !AllChannels(channels, kept, offered)
  {
    var name :| name in channels && |channels[name]| == 1;
    assert !ChannelOf(channels[name], name, kept, offered);
  }
}
