/** The amdgpu backend of the GPU telemetry layer: temperature and fan speed
    read from the kernel's hwmon directories. The filesystem is given as
    data: entry `n` of the directory sequence stands for
    `/sys/class/hwmon/hwmon<n>` (`None` when it does not exist), with what
    reading its `pwm1` and `temp1_input` files yields. */
module Sysfs {
  import opened Wrappers
  import opened CTypes

  /** One existing hwmon directory: whether `pwm1` exists, the integer parsed
      from it (`None` if it cannot be opened or parsed) and the integer
      parsed from `temp1_input` (likewise). */
  datatype HwmonDir = HwmonDir(hasPwm: bool, pwm: Option<int>, temp: Option<int>)

  /** A temperature in degrees and a fan speed in percent; -1 in either means
      "unknown". */
  datatype Reading = Reading(temp: real, fanspeed: int)

  const UNKNOWN: Reading := Reading(-1.0, -1)

  // ---------------------------------------------------------------------
  // Specification of the scan

  /** The directories the scan examines: those numbered before the first
      missing one. */
  function Visible(fs: seq<Option<HwmonDir>>): (v: seq<HwmonDir>)
    ensures |v| <= |fs|
    ensures forall i :: 0 <= i < |v| ==> fs[i] == Some(v[i])
    ensures |v| < |fs| ==> fs[|v|].None?
  {
    if fs == [] || fs[0].None? then [] else [fs[0].value] + Visible(fs[1..])
  }

  /** The fan-bearing directories among `v`, in order: the ones that get a
      GPU ordinal. */
  function FanDirs(v: seq<HwmonDir>): (f: seq<HwmonDir>)
    ensures |f| <= |v|
    ensures forall i :: 0 <= i < |f| ==> f[i].hasPwm
  {
    if v == [] then []
    else FanDirs(v[..|v| - 1]) + (if v[|v| - 1].hasPwm then [v[|v| - 1]] else [])
  }

  /** The ordinal of directory `j`: how many fan-bearing directories precede it. */
  function Ordinal(v: seq<HwmonDir>, j: nat): nat
    requires j <= |v|
  {
    |FanDirs(v[..j])|
  }

  /** `round(pwm * 100 / 255.)`: the pulse width rescaled to a percentage and
      rounded to the nearest integer, halves away from zero. */
  function FanPercent(pwm: int): (r: int)
    ensures -255 < 510 * r - 200 * pwm < 255
    ensures 0 <= pwm <= 255 ==> 0 <= r <= 100
  {
    if pwm >= 0 then
      NearestPercent(pwm);
      (pwm * 200 + 255) / 510
    else
      NearestPercent(-pwm);
      -((-pwm * 200 + 255) / 510)
  }

  /** For a non-negative pulse width, `(200 p + 255) / 510` is the integer
      nearest to `100 p / 255`; it is never a tie, since `200 p` is even and
      `255 (2 q + 1)` odd. */
  lemma NearestPercent(p: nat)
    ensures -255 < 510 * ((p * 200 + 255) / 510) - 200 * p < 255
  {
    var n := p * 200 + 255;
    var q := n / 510;
    var m := n % 510;
    assert n == 510 * q + m && 0 <= m < 510;
  }

  /** What the scan reads from its target directory: each value scaled when
      its file parses, "unknown" otherwise, each independently of the other. */
  function DirReading(d: HwmonDir): (r: Reading)
    ensures d.temp.Some? ==> r.temp * 1000.0 == d.temp.value as real
    ensures d.temp.None? ==> r.temp == -1.0
    ensures d.pwm.Some? ==> -255 < 510 * r.fanspeed - 200 * d.pwm.value < 255
    ensures d.pwm.None? ==> r.fanspeed == -1
  {
    Reading(
      if d.temp.Some? then d.temp.value as real / 1000.0 else -1.0,
      if d.pwm.Some? then FanPercent(d.pwm.value) else -1)
  }

  /** The result for GPU `gpuid`: the reading of the `gpuid`-th fan-bearing
      visible directory, or "unknown" when there are not that many. */
  function Expected(gpuid: uint32, fs: seq<Option<HwmonDir>>): Reading {
    var fans := FanDirs(Visible(fs));
    if gpuid < |fans| then DirReading(fans[gpuid]) else UNKNOWN
  }

  /** Directory `j` is the one read for GPU `gpuid`. */
  predicate IsTarget(fs: seq<Option<HwmonDir>>, gpuid: uint32, j: nat) {
    var v := Visible(fs);
    j < |v| && v[j].hasPwm && Ordinal(v, j) == gpuid
  }

  // ---------------------------------------------------------------------
  // The scan itself

  /** `sysfs_gpu_temp_and_fanspeed`: walk hwmon0, hwmon1, ... until one is
      missing, counting the fan-bearing directories, and read the one whose
      count equals `gpuid`. */
  method TempAndFanspeed(gpuid: uint32, fs: seq<Option<HwmonDir>>) returns (temp: real, fanspeed: int)
    ensures Reading(temp, fanspeed) == Expected(gpuid, fs)
    ensures |FanDirs(Visible(fs))| <= gpuid ==> temp == -1.0 && fanspeed == -1
  {
    var hwmon := 0;
    var hwmonGpu := 0;
    temp := -1.0;
    fanspeed := -1;
    ghost var v := Visible(fs);

    while true
      invariant 0 <= hwmon <= |v|
      invariant hwmonGpu == |FanDirs(v[..hwmon])|
      invariant Reading(temp, fanspeed) ==
        if gpuid < hwmonGpu then DirReading(FanDirs(v[..hwmon])[gpuid]) else UNKNOWN
      decreases |v| - hwmon
    {
      var entry := if hwmon < |fs| then fs[hwmon] else None;
      if entry.None? {
        break;
      }
      var dir := entry.value;
      assert dir == v[hwmon];
      assert v[..hwmon + 1][..hwmon] == v[..hwmon];
      if dir.hasPwm {
        if hwmonGpu == gpuid {
          if dir.pwm.Some? {
            fanspeed := FanPercent(dir.pwm.value);
          }
          if dir.temp.Some? {
            temp := dir.temp.value as real / 1000.0;
          }
        }
        hwmonGpu := hwmonGpu + 1;
      }
      hwmon := hwmon + 1;
    }
    assert v[..hwmon] == v;
  }

  // ---------------------------------------------------------------------
  // Properties of the scan

  /** Rescaling examples: no fan, full fan and the half-way value. */
  lemma FanPercentExamples()
    ensures FanPercent(0) == 0 && FanPercent(255) == 100 && FanPercent(128) == 50
  {
  }

  /** The fan-bearing directories of a prefix are a prefix of those of the whole. */
  lemma {:induction false} FanDirsPrefix(v: seq<HwmonDir>, k: nat)
    requires k <= |v|
    ensures FanDirs(v[..k]) <= FanDirs(v)
    decreases |v|
  {
    if k < |v| {
      var w := v[..|v| - 1];
      assert v[..k] == w[..k];
      FanDirsPrefix(w, k);
    } else {
      assert v[..k] == v;
    }
  }

  /** A fan-bearing directory sits in the fan-bearing list at its ordinal. */
  lemma TargetOfOrdinal(v: seq<HwmonDir>, j: nat)
    requires j < |v| && v[j].hasPwm
    ensures Ordinal(v, j) < |FanDirs(v)| && FanDirs(v)[Ordinal(v, j)] == v[j]
  {
    assert v[..j + 1][..j] == v[..j];
    assert FanDirs(v[..j + 1]) == FanDirs(v[..j]) + [v[j]];
    FanDirsPrefix(v, j + 1);
  }

  /** Ordinals strictly increase past a fan-bearing directory, so no two
      fan-bearing directories share one. */
  lemma OrdinalIncreases(v: seq<HwmonDir>, i: nat, j: nat)
    requires i < j <= |v| && v[i].hasPwm
    ensures Ordinal(v, i) < Ordinal(v, j)
  {
    var w := v[..j];
    assert w[..i + 1] == v[..i + 1];
    assert v[..i + 1][..i] == v[..i];
    assert FanDirs(v[..i + 1]) == FanDirs(v[..i]) + [v[i]];
    FanDirsPrefix(w, i + 1);
  }

  /** Every entry of the fan-bearing list comes from a fan-bearing directory
      whose ordinal is its position. */
  lemma {:induction false} FanDirSource(v: seq<HwmonDir>, k: nat)
    requires k < |FanDirs(v)|
    ensures exists j :: 0 <= j < |v| && v[j].hasPwm && Ordinal(v, j) == k && FanDirs(v)[k] == v[j]
    decreases |v|
  {
    var w := v[..|v| - 1];
    var last := |v| - 1;
    assert v[..last] == w;
    if k < |FanDirs(w)| {
      FanDirSource(w, k);
      var j :| 0 <= j < |w| && w[j].hasPwm && Ordinal(w, j) == k && FanDirs(w)[k] == w[j];
      assert w[..j] == v[..j];
      assert v[j] == w[j];
    } else {
      assert v[last].hasPwm && k == |FanDirs(w)|;
      assert Ordinal(v, last) == k;
    }
  }

  /** When the requested GPU has a fan-bearing visible directory at all,
      some directory has its ordinal. */
  lemma TargetExists(gpuid: uint32, fs: seq<Option<HwmonDir>>)
    requires gpuid < |FanDirs(Visible(fs))|
    ensures exists j: nat :: IsTarget(fs, gpuid, j)
  {
    var v := Visible(fs);
    FanDirSource(v, gpuid);
    var j :| 0 <= j < |v| && v[j].hasPwm && Ordinal(v, j) == gpuid as int && FanDirs(v)[gpuid] == v[j];
    assert IsTarget(fs, gpuid, j);
  }

  /** The result is the reading of the target directory. */
  lemma TargetReading(gpuid: uint32, fs: seq<Option<HwmonDir>>, j: nat)
    requires IsTarget(fs, gpuid, j)
    ensures gpuid < |FanDirs(Visible(fs))|
    ensures Expected(gpuid, fs) == DirReading(Visible(fs)[j])
  {
    TargetOfOrdinal(Visible(fs), j);
  }

  /** At most one directory is the target. */
  lemma TargetIsUnique(gpuid: uint32, fs: seq<Option<HwmonDir>>, i: nat, j: nat)
    requires IsTarget(fs, gpuid, i) && IsTarget(fs, gpuid, j)
    ensures i == j
  {
    if i < j {
      OrdinalIncreases(Visible(fs), i, j);
    } else if j < i {
      OrdinalIncreases(Visible(fs), j, i);
    }
  }

  /** Without a target directory, both outputs keep their "unknown" starting
      values; in particular when no hwmon directory exists at all. */
  lemma NoTargetMeansUnknown(gpuid: uint32, fs: seq<Option<HwmonDir>>)
    requires forall j: nat :: !IsTarget(fs, gpuid, j)
    ensures Expected(gpuid, fs) == UNKNOWN
  {
    if gpuid < |FanDirs(Visible(fs))| {
      TargetExists(gpuid, fs);
    }
  }

  /** The scan stops at the first missing directory: whatever follows a gap
      is never examined. */
  lemma {:induction false} VisibleStopsAtGap(pre: seq<Option<HwmonDir>>, post: seq<Option<HwmonDir>>)
    ensures Visible(pre + [None] + post) == Visible(pre)
  {
    if pre != [] && pre[0].Some? {
      assert (pre + [None] + post)[1..] == pre[1..] + [None] + post;
      VisibleStopsAtGap(pre[1..], post);
    }
  }

  /** Directories after a numbering gap never affect the result. */
  lemma GapHidesRest(gpuid: uint32, pre: seq<Option<HwmonDir>>, post: seq<Option<HwmonDir>>)
    ensures Expected(gpuid, pre + [None] + post) == Expected(gpuid, pre)
  {
    VisibleStopsAtGap(pre, post);
  }

  /** Replacing an existing directory by another existing one changes the
      visible sequence at that position only, or not at all past a gap. */
  lemma {:induction false} VisibleUpdate(fs: seq<Option<HwmonDir>>, j: nat, d: HwmonDir)
    requires j < |fs| && fs[j].Some?
    ensures Visible(fs[j := Some(d)]) ==
      if j < |Visible(fs)| then Visible(fs)[j := d] else Visible(fs)
  {
    if fs[0].None? {
      assert j != 0;
    } else if j == 0 {
      assert fs[j := Some(d)][1..] == fs[1..];
    } else {
      assert fs[j := Some(d)][1..] == fs[1..][j - 1 := Some(d)];
      VisibleUpdate(fs[1..], j - 1, d);
    }
  }

  /** Changing the files of one directory, but not whether it has `pwm1`,
      changes the fan-bearing list only at that directory's ordinal. */
  lemma {:induction false} FanDirsUpdate(v: seq<HwmonDir>, j: nat, d: HwmonDir)
    requires j < |v| && d.hasPwm == v[j].hasPwm
    ensures |FanDirs(v[j := d])| == |FanDirs(v)|
    ensures v[j].hasPwm ==>
      Ordinal(v, j) < |FanDirs(v)| && FanDirs(v[j := d]) == FanDirs(v)[Ordinal(v, j) := d]
    ensures !v[j].hasPwm ==> FanDirs(v[j := d]) == FanDirs(v)
    decreases |v|
  {
    var last := |v| - 1;
    var w := v[..last];
    if v[j].hasPwm {
      TargetOfOrdinal(v, j);
    }
    if j == last {
      assert v[j := d][..last] == w;
      assert v[..j] == w;
    } else {
      assert v[j := d][..last] == w[j := d];
      assert w[..j] == v[..j];
      FanDirsUpdate(w, j, d);
      if v[j].hasPwm {
        TargetOfOrdinal(w, j);
      }
    }
  }

  /** Only the target directory's files are read: changing the `pwm1` or
      `temp1_input` contents of any other directory leaves the result as it
      was. */
  lemma OnlyTargetIsRead(gpuid: uint32, fs: seq<Option<HwmonDir>>, j: nat, d: HwmonDir)
    requires j < |fs| && fs[j].Some? && d.hasPwm == fs[j].value.hasPwm
    requires !IsTarget(fs, gpuid, j)
    ensures Expected(gpuid, fs[j := Some(d)]) == Expected(gpuid, fs)
  {
    var v := Visible(fs);
    VisibleUpdate(fs, j, d);
    if j < |v| {
      assert v[j] == fs[j].value;
      FanDirsUpdate(v, j, d);
    }
  }
}
