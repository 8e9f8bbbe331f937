# PANOPTES target scheduler, modelled in Dafny

This project models the target-selection engine of the PANOPTES observatory
control software (`panoptes/scheduler.py`). That engine decides, unattended,
which astronomical target to observe next. It has three parts:

- **Observations and targets.** A catalog entry (a parsed YAML mapping) is turned
  into a `Target`, which holds a name, a priority, a sky position and a visit of
  `Observation`s.
  Every optional field is read best-effort: if it is absent, or Python's
  `int()`/`float()`/`* u.s` raises on it, the field takes its default.
- **Duration estimates.** An observation lasts as long as the slower of its
  master and slave camera channels. A visit lasts the sum of its observations'
  durations, plus one overhead per observation.
- **Merit, veto and rank.** `get_target` scores each candidate by a weighted sum
  of named merit terms. A falsy term vetoes the candidate. Each score is
  multiplied by the candidate's priority, and the best non-vetoed candidate is
  returned. The built-in term `observable` samples the visit every 30 seconds
  against the observatory's horizon. It vetoes the target as soon as one sample
  is obstructed.

Modules: `Wrappers` (Option, Result), `Values` (raw YAML values and Python's
conversions), `Observations`, `Targets`, `Merit` (the `observable` function, the
registry and the default weights), `Scheduling` (evaluation, ranking,
`get_target`, lazy loading), and `Scenarios` (two concrete catalogs proved end to end).

Durations, priorities, weights and merit values are `real` with no rounding.
A merit value is falsy exactly when it is `0.0`; Python's `False` and `None`
both count as that.

What the model takes as parameters instead of computing:
- The observatory is `Observatory(horizon)`, where `horizon(p, offset)` says
  whether sky position `p` is unobstructed `offset` seconds from now. This
  stands for the ephemeris computation plus the horizon test, which see only
  the target's coordinates and the time, never its name, priority or visit.
- The coordinate parsing of an entry is a predicate `positioned` on its raw
  `position` and `frame` values (a `SkyPosition`). A target keeps those raw
  values, and `observable` hands the horizon the target's position.
- The merit-function lookup by name is an explicit `Registry` map.
- The weights dict is a sequence of (name, weight) pairs in iteration order.
  Its names are taken to be distinct, as a dict's keys are; a repeated name
  would be evaluated and summed twice.

Behaviour modelled as the code has it:
- `estimate_visit_duration` calls `estimate_duration()` with no argument
  (line 89), so the per-exposure overhead is zero there. The visit overhead is
  charged once per observation, not twice.
- The `analyze` flag tests the raw `master_filter` value against eight tokens
  (line 124). No `analyze` field is read. When the flag is on, `master_filter`
  is always `None`.
- A name may be the empty string; the constructor only checks that it is a string.
- An empty visit list is accepted.
- A string `visit` yields one all-default observation per character. A mapping
  `visit` yields one all-default observation per key.
- If the entry has no `position` or no `frame` key (line 44), or the position
  cannot be parsed, target construction fails. The position is then `None`,
  and the `except` branch that sets its equinox raises (line 51). So a catalog
  whose entries give no position, such as a name/priority/visit-only example
  catalog, is rejected by the code as written (`Scenarios.UnpositionedCatalogRejected`).
- A weight naming no merit function raises only when at least one candidate
  is evaluated. With no candidates, `get_target` returns no target.
- One bad catalog entry aborts the whole load (lines 267-268). The code lets
  the constructor's exception propagate with no index; the model's error also
  carries the index of that entry, which is an addition of the model.

Behaviour corrected (see "Findings"):
- Ties between equal scores, and an empty weights mapping: see "Findings". The
  model uses the first maximal candidate in list order, and with no weights
  every candidate scores 0 and none is vetoed.
- `Scheduling.Select` (the whole `get_target`, with lazy loading) chooses with
  the corrected `GetTarget`.

## Model

| member | source | states |
|---|---|---|
| Values.Truncate | panoptes/scheduler.py:309 | `int(x)` of a float rounds toward zero: `n <= x < n+1` for `x >= 0`, `n-1 < x <= n` for `x < 0` |
| Values.ParseIntShowInt | panoptes/scheduler.py:114 | `int()` reads back every integer's decimal spelling |
| Values.ParseRealShowInt | panoptes/scheduler.py:39 | `float()` of an integer's spelling is that integer |
| Observations.FromValue | panoptes/scheduler.py:100-142 | a non-mapping entry gives the all-default observation; each exposure time and count is its field converted by `* u.s` or `int()` when present and convertible, and its default (120 s, 1 exposure) when absent or when the conversion raises; each filter is `int()` of its field, None when absent or unconvertible; `analyze` holds iff the raw `master_filter` is one of the eight tokens, and then the filter is None |
| Observations.AnalyzeTokensAreNotIntegers | panoptes/scheduler.py:117-126 | no token that switches `analyze` on can also be read as a filter number |
| Observations.DefaultsWhenAbsent | panoptes/scheduler.py:107-142 | a record with none of the six fields gives exactly 120 s / 1 / None on both channels and `analyze` false |
| Observations.FromValueToRecord | panoptes/scheduler.py:100-142 | every observation satisfying the filter/analyze invariant is read back unchanged from the record that spells it out |
| Observations.EstimateDuration | panoptes/scheduler.py:160-161 | the duration is at least each channel's `(exptime + overhead) * nexp` and equals one of them |
| Observations.EstimateDurationMonotone | panoptes/scheduler.py:160-161 | with non-negative inputs, longer or more exposures on either channel never shorten the estimate |
| Observations.EstimateDurationNonNegative | panoptes/scheduler.py:160-161 | non-negative times, counts and overhead give a non-negative duration |
| Targets.VisitOf | panoptes/scheduler.py:62-66 | a list visit gives one observation per element, in order; a string or mapping gives one default observation per character or key; scalars raise |
| Targets.FromRecord | panoptes/scheduler.py:29-66 | construction succeeds iff the entry is a mapping with a string `name`, both `position` and `frame` keys whose values the parser accepts, and an iterable `visit`; a missing position key fails the entry; the name and raw position are kept; priority is `float()` of the field when present and convertible and 1.0 otherwise; the visit keeps the raw list's length and order |
| Targets.FromRecordToRecord | panoptes/scheduler.py:29-66 | every target with valid observations and a position the parser accepts is read back unchanged from the entry (with `position` and `frame`) that spells it out |
| Targets.FromRecords | panoptes/scheduler.py:266-270 | the load succeeds iff every entry is constructible, giving one target per entry in order; otherwise it reports the first failing entry |
| Targets.VisitDuration | panoptes/scheduler.py:87-91 | the visit duration, accumulated in visit order, is the plain total of the observations' zero-overhead durations plus one overhead per observation (0 for an empty visit) |
| Targets.VisitDurationClosedForm | panoptes/scheduler.py:87-91 | the visit duration is the sum of the observations' zero-overhead durations plus the overhead times the number of observations |
| Targets.VisitDurationNonNegative | panoptes/scheduler.py:87-91 | observations with non-negative fields and a non-negative overhead give a non-negative visit duration |
| Merit.SampleOffsets | panoptes/scheduler.py:307-309 | offsets are 0, 30, 60, ... below `int(duration) + 30`, and the last one is at or past `int(duration)`; there are none only when that stop value is not positive |
| Merit.FirstFailure | panoptes/scheduler.py:309-316 | finds the earliest obstructed sample: none iff every sample is visible, else an obstructed sample with all earlier ones visible |
| Merit.Samples | panoptes/scheduler.py:300-309 | the samples of a target are 0, 30, 60, ... seconds, all below the truncated total of its observations' durations plus 30; there is at least one exactly when that stop value is positive, and the last is at or past the truncated total |
| Merit.Observable | panoptes/scheduler.py:277-318 | returns 1 iff the horizon holds for the target's position at every 30 s sample of the visit, and the veto value otherwise |
| Merit.SamplesCoverVisit | panoptes/scheduler.py:300-309 | for a visit of non-negative observations, sampling starts at 0 and the last sample is within a second of the visit's end or past it |
| Scheduling.Evaluate | panoptes/scheduler.py:216-238 | fails iff some weight names no merit function, and then with the first such name; the target is vetoed iff some term is falsy; if not vetoed, its merit is the sum of weight times value |
| Scheduling.Rank | panoptes/scheduler.py:214-246 | the loop fails exactly when a term name is unknown, with the first candidate's error; otherwise its leader is None only when every candidate is vetoed, and is else a non-vetoed candidate of maximal score, strictly better than every earlier one, recorded with priority times weighted sum as its score (the corrected reading: with no weights it returns a leader where the code raises at line 243) |
| Scheduling.GetTarget | panoptes/scheduler.py:188-251 | no target iff the list is empty or every candidate is vetoed; otherwise a non-vetoed candidate whose score is at least every other non-vetoed candidate's, the first such in list order; an unknown term raises iff there is a candidate; this is the corrected selection of both Findings rows |
| Scheduling.NoTermsNoVeto | panoptes/scheduler.py:218-240 | with no weighted terms a candidate is not vetoed and scores 0 (the corrected reading; the code raises at line 243 before using that score) |
| Scheduling.VetoExcludes | panoptes/scheduler.py:232-240 | a target that any term vetoes is never returned, whatever its other terms give |
| Scheduling.SingleCandidate | panoptes/scheduler.py:239-249 | a single non-vetoed candidate is returned by the corrected selection, also with no weights, where the code raises at line 243 (see Findings) |
| Scheduling.HigherPriorityWins | panoptes/scheduler.py:239-249 | of two candidates with equal positive weighted sums, the higher priority is returned in either list order |
| Scheduling.TieGoesToEarlier | panoptes/scheduler.py:244-249 | of two non-vetoed candidates with equal scores, the earlier in the list is returned |
| Scheduling.GetTargetAsWritten | panoptes/scheduler.py:242-246 | the selection as written raises on the first candidate iff there are candidates and no weights, raises on sorting iff two non-vetoed candidates tie in score, and otherwise agrees with GetTarget |
| Scheduling.NoWeightsRaiseAsWritten | panoptes/scheduler.py:242-243 | with no weights, one candidate makes the as-written selection raise, while GetTarget returns it |
| Scheduling.TieRaisesAsWritten | panoptes/scheduler.py:246 | two equally scored candidates make the as-written selection raise (on the tie, or first on line 243 when there are no weights), while GetTarget returns the earlier one |
| Scheduling.Select | panoptes/scheduler.py:208-210 | the catalog is read only when the list is empty, and the loaded list is then exactly the targets read from it; a read failure leaves the state unchanged and names the first bad entry; otherwise the answer is GetTarget's choice over the loaded list |
| Scheduling.SelectStable | panoptes/scheduler.py:208-210 | once a non-empty list is loaded, asking again does not re-read the catalog and gives the same answer |
| Scenarios.ReadCatalog | panoptes/scheduler.py:29-66 | the two-entry catalog (A priority 3 and B priority 1, at two different parsed positions, one 60 s master exposure each) reads as the expected targets |
| Scenarios.UnpositionedCatalogRejected | panoptes/scheduler.py:42-51 | the same catalog without `position` and `frame` keys fails at its first entry, whatever the coordinate parser does |
| Scenarios.BothObservable | panoptes/scheduler.py:188-251 | with both always observable and weights `{observable: 1.0}`, A is chosen with merit 3 |
| Scenarios.OnlyBObservable | panoptes/scheduler.py:188-251 | with A's position obstructed and B's clear, A is vetoed and B is chosen |

## Left out

- `panoptes/camera/canon_gphoto2.py`: camera control through a subprocess, the
  filesystem and the wall clock. None of it affects target choice.
- Reading the catalog file and parsing YAML (`read_target_list`, lines 263-265):
  the catalog is an already-parsed sequence of values. PyYAML's `yaml.load`
  reads unquoted `yes`/`Yes`/`true`/`True` (and on/off/no/false) as booleans,
  and a boolean never equals one of the `analyze` tokens, so those four tokens
  set `analyze` only when quoted. Unquoted `y`, `Y`, `t` and `T` load as strings
  and do set it. The model keeps this distinction by having separate `Bool` and
  `Str` values.
- Sky coordinates, equinox, epoch and proper motion (lines 42-61): the raw
  `position` and `frame` values are kept and `positioned` says whether they
  parse; the parsed coordinate, equinox, epoch and proper motion are not stored.
- The ephemeris computation, the site date and `datetime.utcnow()`
  (lines 290-314): these are folded into `Observatory.horizon`, which takes the
  offset in seconds from one current moment shared by all candidates (the code
  reads the clock once per candidate, microseconds apart).
- The `isinstance` assertions in `observable` (lines 290-293): Dafny's types make them hold.
- Logging, the `has_logger`/`has_config` decorators and the `__main__` demo.
- Reflective lookup with `getattr` on the module (line 225): the `Registry`
  holds only merit functions. A name that resolves to some other module
  attribute is not modelled.
- Merit values that are not numbers: a merit value is a real number.
- Floating-point rounding, infinities and NaN: all arithmetic is exact on reals.
- Values.ToSeconds: a string or list multiplied by `u.s` is treated as raising.
  Astropy's actual result there depends on its version (a parsed quantity, an
  array, or a composite unit).
- Values.ParseInt: Python's `int()` also accepts underscores between digits,
  Unicode digits and Unicode whitespace. These spellings read as unparseable here.
- Values.ParseReal: Python's `float()` also accepts `inf`, `nan`, `infinity`,
  underscores and Unicode whitespace. These spellings read as unparseable here,
  so the priority falls back to 1.0.
- Scheduling.SingleCandidate: also covers an empty weights mapping, where the
  code raises at line 243 instead; it states the corrected selection of the
  first Findings row.
- Scheduling.NoTermsNoVeto: the zero score with no terms is the corrected
  reading; the code raises at line 243 before it uses that score.
- Scheduling.Rank: returns a leader with no weights, where the code raises at
  line 243; `Scheduling.GetTargetAsWritten` models the raise.
- Atomic replacement of the candidate list under concurrent readers: the
  source is single-threaded, and the model's state is an immutable value.

## Findings

| source | as written | input that shows it | evidently intended | confidence | as-written member | corrected member |
|---|---|---|---|---|---|---|
| panoptes/scheduler.py:242-243 | the log line after each candidate's term loop formats `merit_value`, which only the term loop assigns; with an empty weights mapping it is unbound, and Python raises `UnboundLocalError` on the first candidate | one always-observable candidate and `weights={}` | with no terms nothing vetoes and every candidate scores 0, so the candidate is returned | not executed; high (follows from Python's scoping of local variables) | Scheduling.GetTargetAsWritten, Scheduling.NoWeightsRaiseAsWritten | Scheduling.GetTarget, Scheduling.NoTermsNoVeto, Scheduling.SingleCandidate |
| panoptes/scheduler.py:246 | `sorted(merits)[-1]` sorts (score, target) pairs; on equal scores it compares two `Target` objects, which define no ordering, so Python 3 raises `TypeError` | two non-vetoed candidates with equal score, e.g. both always observable with equal priority under `{observable: 1.0}` | return one of the best candidates by a fixed rule; the model returns the first maximal one in list order | not executed; medium (certain under Python 3 semantics, but under Python 2 the objects would compare by identity instead) | Scheduling.GetTargetAsWritten, Scheduling.TieRaisesAsWritten | Scheduling.GetTarget, Scheduling.TieGoesToEarlier |
