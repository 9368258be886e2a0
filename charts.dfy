/** The rolling window behind the dashboard's resource chart (public/script.js
    `updateCharts`): three parallel arrays, the time labels, the CPU series and
    the memory series, updated in place with `shift` and `push`. Redrawing the
    chart is not modelled. */
module Charts {

  /** The window is trimmed once it holds more than this many points. */
  const MaxPoints: nat := 20

  /** `Array.prototype.shift` for the array it changes: the first element goes,
      an empty array stays empty. */
  function Shift<T>(s: seq<T>): (r: seq<T>)
    ensures s == [] || s == [s[0]] + r
    ensures |r| == if s == [] then 0 else |s| - 1
  {
    if s == [] then [] else s[1..]
  }

  /** One update of a series whose own length decides the trimming. */
  function Step<T>(s: seq<T>, x: T): seq<T> {
    (if |s| > MaxPoints then s[1..] else s) + [x]
  }

  /** The series after pushing `xs` one by one into an empty window. */
  function Replay<T>(xs: seq<T>): seq<T> {
    if xs == [] then [] else Step(Replay(xs[..|xs| - 1]), xs[|xs| - 1])
  }

  function Min(a: nat, b: nat): nat {
    if a < b then a else b
  }

  /** FIFO: after any number of updates from an empty chart, the series holds
      exactly the latest MaxPoints + 1 values pushed (all of them while there are
      fewer), oldest first. */
  lemma {:induction false} ReplayKeepsLatest<T>(xs: seq<T>)
    ensures Replay(xs) == xs[|xs| - Min(|xs|, MaxPoints + 1)..]
  {
    if xs != [] {
      var init := xs[..|xs| - 1];
      ReplayKeepsLatest(init);
      var kept := init[|init| - Min(|init|, MaxPoints + 1)..];
      if |kept| > MaxPoints {
        assert kept[1..] + [xs[|xs| - 1]] == xs[|xs| - Min(|xs|, MaxPoints + 1)..];
      } else {
        assert kept + [xs[|xs| - 1]] == xs[|xs| - Min(|xs|, MaxPoints + 1)..];
      }
    }
  }

  class ResourceChart {
    /** `cpuData.labels`: one time label per point. */
    var labels: seq<string>
    /** `cpuData.datasets[0].data`. */
    var cpuData: seq<real>
    /** `memoryData.datasets[0].data`. */
    var memoryData: seq<real>

    /** The three arrays describe the same points. */
    ghost predicate Valid()
      reads this
    {
      |labels| == |cpuData| == |memoryData|
    }

    /** The chart as the page loads: no points. */
    constructor ()
      ensures Valid() && labels == [] && cpuData == [] && memoryData == []
    {
      labels, cpuData, memoryData := [], [], [];
    }

    /** `updateCharts(cpuUsage, memoryUsage)` at time label `now`: when the
        labels hold more than MaxPoints entries, the oldest entry of each array
        goes; then the new label and values are appended. The labels' length
        alone decides the trimming, for all three arrays. */
    method UpdateCharts(now: string, cpuUsage: real, memoryUsage: real)
      modifies this
      ensures old(|labels|) > MaxPoints ==>
        && labels == old(labels)[1..] + [now]
        && cpuData == Shift(old(cpuData)) + [cpuUsage]
        && memoryData == Shift(old(memoryData)) + [memoryUsage]
      ensures old(|labels|) <= MaxPoints ==>
        && labels == old(labels) + [now]
        && cpuData == old(cpuData) + [cpuUsage]
        && memoryData == old(memoryData) + [memoryUsage]
      ensures old(Valid()) ==> Valid()
      ensures old(Valid()) ==>
        && labels == Step(old(labels), now)
        && cpuData == Step(old(cpuData), cpuUsage)
        && memoryData == Step(old(memoryData), memoryUsage)
      ensures old(|labels|) <= MaxPoints + 1 ==> |labels| <= MaxPoints + 1
    {
      if |labels| > MaxPoints {
        labels := labels[1..];
        cpuData := Shift(cpuData);
        memoryData := Shift(memoryData);
      }
      labels := labels + [now];
      cpuData := cpuData + [cpuUsage];
      memoryData := memoryData + [memoryUsage];
    }
  }
}
