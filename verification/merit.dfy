/**
 * Merit functions and their registry. A merit function scores one target
 * for the observatory at the current moment; a falsy score (zero, which is
 * also what Python's `False` and `None` count as) vetoes the target. The one
 * built-in merit function is `observable`.
 */
module Merit {
  import opened Wrappers
  import opened Values
  import opened Targets

  /** What the scheduler needs from the observatory: whether a sky position
      (the target's coordinates), as seen from the site `offset` seconds
      after now, lies in the unobstructed sky. This stands for the ephemeris
      computation of altitude and azimuth followed by the observatory's
      horizon test, both outside this model; like them, it sees nothing of a
      target but its position. */
  datatype Observatory = Observatory(horizon: (SkyPosition, int) -> bool)

  /** A merit function: a score for a target at the current moment. */
  type MeritFunction = (Target, Observatory) -> real

  /** The names a weight can refer to, and the merit function behind each. */
  type Registry = map<string, MeritFunction>

  /** Seconds between two horizon samples. */
  const TimeStep: int := 30

  predicate Falsy(v: real)
  {
    v == 0.0
  }

  /** The sample offsets of `np.arange(0, int(duration) + 30, 30)`: multiples
      of 30 from 0, below the stop value, up to the first one at or past the
      truncated duration. A duration of -30 s or less gives no sample at all. */
  function SampleOffsets(duration: real): (offsets: seq<int>)
    ensures forall i :: 0 <= i < |offsets| ==> offsets[i] == TimeStep * i
    ensures forall i :: 0 <= i < |offsets| ==> offsets[i] < Truncate(duration) + TimeStep
    ensures |offsets| > 0 ==> offsets[|offsets| - 1] >= Truncate(duration)
    ensures |offsets| == 0 <==> Truncate(duration) + TimeStep <= 0
  {
    var stop := Truncate(duration) + TimeStep;
    var count := if stop <= 0 then 0 else (stop + TimeStep - 1) / TimeStep;
    seq(count, i => TimeStep * i)
  }

  /** The first sample, in time order, at which `visible` fails. */
  function FirstFailure(visible: int -> bool, offsets: seq<int>): (k: Option<nat>)
    ensures k.None? <==> forall i :: 0 <= i < |offsets| ==> visible(offsets[i])
    ensures k.Some? ==>
      && k.value < |offsets|
      && !visible(offsets[k.value])
      && forall i :: 0 <= i < k.value ==> visible(offsets[i])
  {
    if |offsets| == 0 then None
    else if !visible(offsets[0]) then Some(0)
    else
      match FirstFailure(visible, offsets[1..])
      case None => None
      case Some(j) => Some(j + 1)
  }

  /** The samples `observable` takes of target `t`: one every 30 seconds
      across its visit, the visit estimated without overhead, which is the
      plain total of its observations' durations. */
  function Samples(t: Target): (offsets: seq<int>)
    ensures forall i :: 0 <= i < |offsets| ==> offsets[i] == TimeStep * i
    ensures forall i :: 0 <= i < |offsets| ==> offsets[i] < Truncate(SumDurations(t.visit)) + TimeStep
    ensures |offsets| > 0 ==> offsets[|offsets| - 1] >= Truncate(SumDurations(t.visit))
    ensures |offsets| == 0 <==> Truncate(SumDurations(t.visit)) + TimeStep <= 0
  {
    VisitDurationClosedForm(t.visit, 0.0);
    SampleOffsets(VisitDuration(t.visit, 0.0))
  }

  /** The built-in `observable` merit function: 1 when the target stays in
      the unobstructed sky at every sample of its visit, and a veto (False)
      as soon as one sample is obstructed. All fully observable targets are
      equally meritorious under it. */
  function Observable(t: Target, obs: Observatory): (m: real)
    ensures m == 1.0 || m == 0.0
    ensures m == 1.0 <==> forall i :: 0 <= i < |Samples(t)| ==> obs.horizon(t.position, TimeStep * i)
  {
    var offsets := Samples(t);
    var visible := off => obs.horizon(t.position, off);
    assert forall i :: 0 <= i < |offsets| ==> (visible(offsets[i]) <==> obs.horizon(t.position, TimeStep * i));
    match FirstFailure(visible, offsets)
    case None => 1.0
    case Some(_) => 0.0
  }

  /** The name the default weights use for the built-in merit function. */
  const ObservableName: string := "observable"

  /** The merit functions known by name: only `observable` is built in. */
  const Builtins: Registry := map[ObservableName := Observable]

  /** The weights `get_target` uses when given none. */
  const DefaultWeights: seq<(string, real)> := [(ObservableName, 1.0)]

  /** A visit of non-negative observations gets a sample at time 0 at least,
      and its last sample is not before the visit's end (to the second). */
  lemma SamplesCoverVisit(t: Target)
    requires forall i :: 0 <= i < |t.visit| ==> Observations.NonNegative(t.visit[i])
    ensures |Samples(t)| > 0 && Samples(t)[0] == 0
    ensures Samples(t)[|Samples(t)| - 1] as real + 1.0 > VisitDuration(t.visit, 0.0)
  {
    VisitDurationNonNegative(t.visit, 0.0);
  }
}
