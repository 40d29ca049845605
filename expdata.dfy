/** The static calibration of class expdata (expdata.cpp): the index of the
    end of the initial static period is found in the table of sample times,
    and the gyroscope offset is the per-axis mean of the samples up to and
    including that index.  Reading the samples from files is not part of
    this model; the samples are given to the constructor. */
module Calibration {
  import opened RecStats
  import opened MathB

  /** expdata::dynamic: one gyroscope sample, its time and three axes. */
  datatype Dynamic = Dynamic(t: real, x: real, y: real, z: real)

  /** expdata::state: a three-axis vector. */
  datatype State3 = State3(x: real, y: real, z: real)

  /** Axis k (0 = x, 1 = y, 2 = z) of a sample. */
  function Component(d: Dynamic, k: int): real
    requires 0 <= k < 3
  {
    if k == 0 then d.x else if k == 1 then d.y else d.z
  }

  /** The series of axis k over the samples. */
  function Axis(store: seq<Dynamic>, k: int): (s: seq<real>)
    requires 0 <= k < 3
    ensures |s| == |store|
    ensures forall i :: 0 <= i < |store| ==> s[i] == Component(store[i], k)
  {
    seq(|store|, i requires 0 <= i < |store| => Component(store[i], k))
  }

  /** The per-axis means of the samples. */
  function AxisMeans(store: seq<Dynamic>): State3
    requires |store| >= 1
  {
    State3(Average(Axis(store, 0)), Average(Axis(store, 1)), Average(Axis(store, 2)))
  }

  /** Feeding sample i into the running mean of axis k over samples 0..i-1
      gives the mean over samples 0..i; at i == 0 the prior value m plays
      no part. */
  lemma MeanStepAxis(store: seq<Dynamic>, i: int, k: int, m: real)
    requires 0 <= i < |store| && 0 <= k < 3
    requires i >= 1 ==> m == Average(Axis(store[..i], k))
    ensures MeanStep(m, Component(store[i], k), i + 1) == Average(Axis(store[..i + 1], k))
  {
    var pre := Axis(store[..i], k);
    var x := Component(store[i], k);
    assert Axis(store[..i + 1], k) == pre + [x];
    if i == 0 {
      assert pre + [x] == [x];
      assert [x][..0] == [];
      assert Sum([x]) == x;
      assert Average([x]) == x;
    } else {
      MeanStepExtends(pre, x);
    }
  }

  /** The loop of static_calibration over the samples of the static
      period: the scratch means ma start as ma0 (uninitialised in the
      source), each sample i is copied into mwa and fed to the running mean
      of each axis with the index i + 1.  The result is the per-axis mean
      of the samples, whatever ma0 held. */
  method StaticMeans(store: seq<Dynamic>, ma0: seq<real>) returns (off: State3)
    requires |store| >= 1 && |ma0| == 3
    ensures off == AxisMeans(store)
  {
    var mwa := new real[3];
    var ma := new real[3];
    ma[0], ma[1], ma[2] := ma0[0], ma0[1], ma0[2];
    var i := 0;
    while i < |store|
      invariant 0 <= i <= |store|
      invariant i >= 1 ==> forall k :: 0 <= k < 3 ==> ma[k] == Average(Axis(store[..i], k))
    {
      mwa[0], mwa[1], mwa[2] := store[i].x, store[i].y, store[i].z;
      ghost var prior := ma[..];
      var j := 0;
      while j < 3
        invariant 0 <= j <= 3
        invariant forall k :: 0 <= k < 3 ==> mwa[k] == Component(store[i], k)
        invariant forall k :: 0 <= k < j ==> ma[k] == Average(Axis(store[..i + 1], k))
        invariant forall k :: j <= k < 3 ==> ma[k] == prior[k]
      {
        MeanStepAxis(store, i, j, ma[j]);
        ma[j] := MeanStep(ma[j], mwa[j], i + 1);
        j := j + 1;
      }
      i := i + 1;
    }
    assert store[..i] == store;
    off := State3(ma[0], ma[1], ma[2]);
  }

  class ExpData {
    /** expdata::static_time: the length of the initial static period. */
    var staticTime: real
    /** expdata::static_int: its index in the table of times. */
    var staticInt: int
    /** expdata::gyro_store: the samples as read. */
    var gyroStore: seq<Dynamic>
    /** expdata::gyro_off: the gyroscope offset. */
    var gyroOff: State3
    /** expdata::global_times: the sample times, one per sample. */
    var globalTimes: array<real>
    /** expdata::data_size: the number of samples. */
    var dataSize: int

    /** The times table holds the time of every sample, and static_int is 0
        or the index of a sample. */
    predicate Valid()
      reads this, globalTimes
    {
      && globalTimes.Length == dataSize == |gyroStore|
      && (forall i :: 0 <= i < dataSize ==> globalTimes[i] == gyroStore[i].t)
      && 0 <= staticInt
      && (staticInt == 0 || staticInt < |gyroStore|)
    }

    /** The object after read_data stored the samples: data_size counts
        them and global_times is filled with their times
        (expdata.cpp:74-75).  static_time and static_int keep their
        default 0, and gyro_off holds whatever off0 says. */
    constructor (store: seq<Dynamic>, off0: State3)
      ensures Valid()
      ensures gyroStore == store && dataSize == |store| && gyroOff == off0
      ensures staticTime == 0.0 && staticInt == 0
      ensures fresh(globalTimes)
    {
      var times := new real[|store|];
      var i := 0;
      while i < |store|
        invariant 0 <= i <= |store|
        invariant forall j :: 0 <= j < i ==> times[j] == store[j].t
      {
        times[i] := store[i].t;
        i := i + 1;
      }
      staticTime := 0.0;
      staticInt := 0;
      gyroStore := store;
      gyroOff := off0;
      globalTimes := times;
      dataSize := |store|;
    }

    /** expdata::set_static_int: static_int := locate(static_time,
        global_times, data_size).  Nothing else changes; the result is an
        index of the table, below data_size - 1 once there are two or more
        samples. */
    method SetStaticInt()
      requires Valid() && dataSize >= 1
      modifies this`staticInt
      ensures Valid()
      ensures staticInt == LocateIndex(staticTime, globalTimes[..dataSize])
      ensures 0 <= staticInt < dataSize && (dataSize >= 2 ==> staticInt <= dataSize - 2)
    {
      staticInt := Locate(staticTime, globalTimes, dataSize);
      LocateRange(staticTime, globalTimes[..dataSize]);
    }

    /** expdata::static_calibration.  With static_int == 0 the source stops
        the program; here ok is false and nothing changes.  Otherwise
        gyro_off becomes the per-axis mean of samples 0..static_int,
        whatever the scratch means ma0 held before. */
    method StaticCalibration(ma0: seq<real>) returns (ok: bool)
      requires Valid() && |ma0| == 3
      modifies this`gyroOff
      ensures Valid()
      ensures ok <==> old(staticInt) != 0
      ensures ok ==> gyroOff == AxisMeans(gyroStore[..staticInt + 1])
      ensures !ok ==> gyroOff == old(gyroOff)
    {
      if staticInt == 0 {
        return false;
      }
      gyroOff := StaticMeans(gyroStore[..staticInt + 1], ma0);
      ok := true;
    }
  }
}
