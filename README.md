# METEORWATCH logic, modelled in Dafny

METEORWATCH is a browser application. Its 3D viewer tracks potentially
hazardous asteroids (PHAs) and their close approaches to Earth. Its
mitigation page estimates how far a deflection method moves a close
approach. A Python helper classifies impact sites for the impact map.
This project models the logic inside those pages. The drawing code is not
modelled.

- `approaches.dfy` (module `Approaches`) holds the close-approach record and
  the two lists built from it. The viewer steps through every approach in
  the years 2025 to 2100, sorted by date. The mitigation page shows the
  first ten of those.
- `viewer.dfy` (module `Viewer`) holds the viewer's pure helpers and
  `ViewerState`, a class with the page's mutable globals:
  - the approach index and the simulated date;
  - the focused asteroid;
  - play/pause and the speed multiplier;
  - the tracked ids (at most five) and their scene objects.

  Its methods are the event handlers: navigation buttons, the speed button,
  ticking and unticking a checkbox, and `removePHA`.
- `mitigation.dfy` (module `Mitigation`) holds the mitigation page's
  physics, over exact reals:
  - the sphere mass;
  - the delta-V of the four methods;
  - the linear miss-distance update with its safety threshold;
  - the year-long daily Euler loop of `calculateNewOrbit`.

  Square root and natural logarithm are function parameters. Where
  JavaScript would produce Infinity or NaN, the model returns an explicit
  `Err`, or a `Diverged` state for the orbit.
- `impactsite.dfy` (module `ImpactSite`) models `calculation/utilities.py`:
  the longitude wrap, the Lake > River > Coastal/Inland > Ocean
  classification, the tsunami flag and `format_large_number`. The spatial
  layer tests are inputs.

Dates are JavaScript Date values (milliseconds). Each approach carries the
year that `getFullYear` reports for it. The filter uses that year and the
sort uses the millisecond value, as the source does.

## Model

| member | source | states |
|---|---|---|
| Approaches.FilterWindow | static/js/main.js:658-662 | keeps exactly the approaches whose year is in 2025..2100, each as often as it occurs |
| Approaches.Insert | static/js/main.js:663 | inserting into a date-sorted list keeps it sorted and adds exactly one element |
| Approaches.SortByDate | static/js/main.js:663 | the result is sorted ascending by date and is a permutation of the input |
| Approaches.Upcoming | static/js/main.js:658-663 | the navigated list is date-sorted and holds exactly the in-window approaches with their multiplicities |
| Approaches.MitigationApproaches | static/js/mitigation.js:122-129 | at most ten entries, all in the window and date-sorted; it is the prefix of the full list of length min(n, 10) |
| Approaches.MitigationApproachesEarliest | static/js/mitigation.js:122-129 | no in-window approach left out of the ten is earlier than one kept |
| Viewer.StepIndex | static/js/main.js:667-669 | after a step the index lies in [0, N) for any earlier index |
| Viewer.StepIndexIsCyclic | static/js/main.js:667-669 | from a valid index a step is +1 or -1 modulo N; forward from N-1 gives 0 and back from 0 gives N-1 |
| Viewer.StepIndexBackUndoesForward | static/js/main.js:667-669 | a step forward and a step back cancel, in either order |
| Viewer.Navigable | static/js/main.js:656-663 | with no focused asteroid the list is empty; otherwise it is date-sorted and holds exactly the focused asteroid's in-window approaches, each as often as it occurs |
| Viewer.Clamp | static/js/main.js:703 | `Math.min(1, Math.max(1e-5, x))`: the value lies within the bounds and equals x when x is inside them |
| Viewer.ImpactProbability | static/js/main.js:698-704 | always in [1e-5, 1]; with zero uncertainty it is 1 iff the miss distance is below 6371 km, else 1e-5; with a zero miss distance it is 1 for positive and 1e-5 for negative uncertainty (the clamped ±Infinity); otherwise it is (6371/miss)(U/10) clamped |
| Viewer.ImpactProbabilityFallsWithDistance | static/js/main.js:702-703 | with positive uncertainty a larger miss distance never gives a larger probability |
| Viewer.ImpactProbabilityGrowsWithUncertainty | static/js/main.js:702-703 | at a fixed positive miss distance a larger uncertainty never gives a smaller probability |
| Viewer.NextSpeed | static/js/main.js:638-639 | keeps the speed in {1, 2, 4, 8, 16}; doubles it up to 16; 16 goes back to 1 |
| Viewer.SpeedCycleHasPeriodFive | static/js/main.js:638-639 | five presses return every speed to itself and fewer presses never do |
| Viewer.Without | static/js/main.js:454 | removes every occurrence of the id and keeps every other id with its multiplicity |
| Viewer.WithoutKeepsOrder | static/js/main.js:567 | removal distributes over concatenation, so the other ids keep their relative order |
| Viewer.WithoutIdempotent | static/js/main.js:567 | removing the same id a second time changes nothing |
| Viewer.FindPha | static/js/main.js:385 | finds an entry with the id exactly when one exists |
| Viewer.FindPhaFindsFirst | static/js/main.js:385 | the entry found is the first one with that id |
| Viewer.ViewerState.constructor | static/js/main.js:88-95 | the page starts with no focus, index 0 and nothing tracked; paused at speed 1, as static/js/main.js:1073 sets them |
| Viewer.ViewerState.Focus | static/js/main.js:1039-1040 | focusing an asteroid restarts navigation at index 0 |
| Viewer.ViewerState.JumpToCloseApproach | static/js/main.js:655-672 | with no navigable approach nothing changes; otherwise the index is the wrapped step and the date is that approach's date |
| Viewer.ViewerState.TogglePlay | static/js/main.js:627-630 | play/pause flips |
| Viewer.ViewerState.PressSpeed | static/js/main.js:637-640 | the new speed is the next one in the cycle and the invariant holds |
| Viewer.ViewerState.CreatePhas | static/js/main.js:381-414 | scene objects are added for exactly the tracked ids that have a position table; existing ones are untouched |
| Viewer.ViewerState.Check | static/js/main.js:558-565 | with five tracked ids the tick is refused and nothing changes; otherwise the id is appended, scene objects are built for exactly the tracked ids that have a position table, each new entry is the table found for its id, and existing entries are untouched |
| Viewer.ViewerState.RemovePha | static/js/main.js:437-456 | an id with scene objects loses them and leaves the tracked list; any other id changes nothing |
| Viewer.ViewerState.Uncheck | static/js/main.js:566-568 | the id leaves both the tracked list and the scene objects; the others keep their order; at most five stay tracked |
| Mitigation.Mass | static/js/mitigation.js:115-118 | the sphere mass is non-negative for non-negative inputs and positive for positive ones |
| Mitigation.MassIsMonotone | static/js/mitigation.js:115-118 | a larger radius or density never gives a smaller mass |
| Mitigation.MassOfUnitSphere | static/js/mitigation.js:115-118 | (4/3)·π·1³·1000 lies between 4188.79 and 4188.80 |
| Mitigation.AsteroidMass | static/js/mitigation.js:110 | the mass of the asteroid's sphere is non-negative for a non-negative diameter and density |
| Mitigation.KineticDeltaV | static/js/mitigation.js:194-200 | defined iff the mass is non-zero; mass·Δv equals β·m_impactor·(v_kms·1000) |
| Mitigation.KineticDefaultExample | static/js/mitigation.js:189-200 | the default sliders give 0.01188 m/s against a 1e9 kg asteroid |
| Mitigation.TractorForce | static/js/mitigation.js:232-233 | inverse-square law: force times distance squared equals G·m_sc·m; positive for positive masses |
| Mitigation.GravityDeltaV | static/js/mitigation.js:226-234 | defined iff distance and mass are non-zero; each zero gives its own error |
| Mitigation.GravityDeltaVIgnoresMass | static/js/mitigation.js:230-234 | Δv = G·m_sc·t/d², whatever the asteroid's mass |
| Mitigation.LaserEjectedMass | static/js/mitigation.js:261-268 | the ablated mass is non-negative for non-negative sliders |
| Mitigation.LaserDeltaV | static/js/mitigation.js:259-269 | for a positive mass, defined iff the ejected mass is below the asteroid's mass |
| Mitigation.LaserDeltaVIsPositive | static/js/mitigation.js:266-269 | removing some but not all of the mass gives a positive Δv |
| Mitigation.NuclearDeltaV | static/js/mitigation.js:294-303 | defined iff the mass is non-zero and the radicand 2·E_eff·mass is non-negative |
| Mitigation.NuclearEnergyBalance | static/js/mitigation.js:296-303 | mass·Δv²/2 equals the coupled energy; the standoff distance has no effect |
| Mitigation.DeltaV | static/js/mitigation.js:185-311 | kinetic and tractor failures are only a zero mass or a zero distance |
| Mitigation.YearsUntil | static/js/mitigation.js:325 | the years times the milliseconds per Julian year give the time left; positive iff the approach is later, zero iff it is now |
| Mitigation.MissDistance | static/js/mitigation.js:322-337 | original is the approach's distance; new = original + change; safe iff new > 3·6371 km |
| Mitigation.MissChangeIsLinear | static/js/mitigation.js:324-329 | the change in km is Δv times the milliseconds left, over 10⁶ |
| Mitigation.MissChangeSign | static/js/mitigation.js:324-329 | the change has the sign of Δv·yearsUntil and is zero iff Δv is 0 or the approach is at the current date |
| Mitigation.Calculate | static/js/mitigation.js:452 | fails exactly when the method's Δv fails; otherwise returns that Δv, and its miss change is exactly the linear miss-distance estimate for that Δv and approach, so the miss-distance lemmas apply to it |
| Mitigation.InitialPhase | static/js/mitigation.js:345-357 | the position is the input in metres; the velocity is NaN exactly when the radius or the circular speed is zero (the numeric values are left out) |
| Mitigation.InitialVelocityIsUniformlyScaled | static/js/mitigation.js:345-357 | the deflected velocity is parallel to the given one, and a zero Δv leaves it unchanged |
| Mitigation.Step | static/js/mitigation.js:371-386 | a NaN state stays NaN; the step is defined exactly at a non-zero radius; the position advances by the new velocity times one day (the numeric values are left out) |
| Mitigation.SampleOf | static/js/mitigation.js:364-369 | a sample carries its day, and is NaN exactly when the state has diverged |
| Mitigation.DivergedIsPermanent | static/js/mitigation.js:371-386 | once the integrator's numbers are NaN they stay NaN |
| Mitigation.FirstSampleIsStart | static/js/mitigation.js:345-369 | the first sample is the input position |
| Mitigation.Propagate | static/js/mitigation.js:363-387 | the loop records `days` samples; sample i is the state after i steps, with day i |
| Mitigation.CalculateNewOrbit | static/js/mitigation.js:340-390 | 365 samples, sample i has day i and is the state after i Euler days |
| ImpactSite.NormaliseLongitude | calculation/utilities.py:142 | the wrapped longitude lies in [-180, 180) and differs from the input by whole turns |
| ImpactSite.NormaliseLongitudeKeepsRange | calculation/utilities.py:142 | a longitude already in [-180, 180) is unchanged |
| ImpactSite.NormaliseLongitudeIsPeriodic | calculation/utilities.py:142 | adding whole turns does not change the result |
| ImpactSite.NormaliseLongitudeIsUnique | calculation/utilities.py:142 | the result is the only value in [-180, 180) a whole number of turns from the input |
| ImpactSite.BufferDegrees | calculation/utilities.py:159 | the buffer in degrees times 111 is the coastal distance in km; the buffer is positive iff the distance is |
| ImpactSite.Classify | calculation/utilities.py:131-169 | Lake iff in a lake; River iff on a river and not in a lake; Coastal/Inland iff on land with or without a coastline within coastal_km/111 degrees; Ocean iff none of these |
| ImpactSite.ClassifyIgnoresWholeTurns | calculation/utilities.py:142-143 | longitudes a whole number of turns apart classify alike |
| ImpactSite.WiderCoastalDistanceOnlyAddsCoastal | calculation/utilities.py:157-166 | widening the coastal distance can only turn Inland into Coastal |
| ImpactSite.TsunamiRiskFlag | calculation/utilities.py:171-181 | 0 or 1; 1 iff not lake, not river, and off land or near a coastline (the Ocean and Coastal labels) |
| ImpactSite.RoundedDigits | calculation/utilities.py:86-90 | the printed digits are within half a last place of the scaled number |
| ImpactSite.FormatLargeNumber | calculation/utilities.py:84-92 | plain below 1000; otherwise B iff ≥ 1e9, M iff in [1e6, 1e9), K iff in [1e3, 1e6), rounded to 2, 2 and 1 places |
| ImpactSite.FormatLargeNumberIsAccurate | calculation/utilities.py:84-92 | the printed value is the input to within half a last place |
| ImpactSite.FormatLargeNumberPrintsThousandK | calculation/utilities.py:87-90 | 999999 prints as "1000.0K" and 999999999 as "1000.00M" |
| ImpactSite.FormatLargeNumberCorrected | calculation/utilities.py:84-92 | same rounding, but K and M always show a mantissa in [1, 1000); the suffix differs from the original only when the original's mantissa reached 1000 |
| ImpactSite.FormatLargeNumberCorrectedPrintsOneM | calculation/utilities.py:84-92 | the corrected helper prints 999999 as "1.00M" and 999999999 as "1.00B" |

## Left out

- Rendering is not modelled: the three.js scene, meshes, labels, the raycaster, the DOM panels and `updatePHAs`. Scene objects are modelled as the PHA record they are built from.
- The random star fields and the random "warning time" fact are not modelled. The other `facts` strings are not modelled either; `calculate` is modelled for `deltaV` and `missChange` only.
- Calendar arithmetic is not modelled:
  - the Date ↔ year conversion (each approach carries both);
  - `julianDay`;
  - the animation loop's day advance and its 2100 → 2025 reset;
  - the Earth angle.
- Numerics are not modelled:
  - IEEE-754 rounding;
  - the accuracy of `Math.sqrt` and `Math.log`, which are arbitrary function parameters;
  - `scale3D`.

  Infinity and NaN appear only as the explicit `Err` results and the `NaNVelocity`/`Diverged` states.
- Mitigation.Step, Mitigation.InitialPhase: the contracts state which states are NaN and the Euler update's shape, not the numeric values.
- Mitigation.CalculateNewOrbit: the numeric values of the Euler steps are not characterised, only the loop's shape. The unused `method` argument is dropped.
- The velocity estimate from the first two stored positions in the apply handler is not modelled. The velocity is a parameter of `CalculateNewOrbit`.
- Data loading and storage are not modelled: `fetch`, `localStorage`, page navigation, and the null `asteroidData` on the mitigation page. The asteroid record is a parameter.
- Viewer.FindPha: ids are one string type compared exactly. JavaScript's loose `==` between a numeric and a string id, and the string coercion of object keys, are not modelled, so a numeric id in the position table never matches a string id here, where the page would match it.
- Viewer.ImpactProbability: `orbit_uncertainty` is taken as a number. A string value (where `=== 0` fails) is not modelled.
- Approaches.SortByDate: the contract states sorted and a permutation. It does not state stability, although the insertion sort keeps equal dates in input order.
- Viewer.Navigable: a missing `close_approach_data` is modelled as an empty list. Both make the buttons do nothing.
- ImpactSite.RoundedDigits: rounds ties upward. Python's `:.2f` rounds the binary value and breaks exact ties to even, so the two can differ by one last place on ties.
- The following parts of `calculation/utilities.py` are not modelled, because they are I/O or foreign-library work:
  - the import-time downloads;
  - the shapefile loading and spatial indexes;
  - `is_on_land`;
  - `get_population_in_radius`;
  - `effective_ke`, which calls an undefined function.

  The spatial tests are the `Geography` input.
- `app.py` and `static/js/impact_map.js` are not part of this model.

## Findings

| source | as written | input that shows it | evidently intended | confidence | as-written member | corrected member |
|---|---|---|---|---|---|---|
| calculation/utilities.py:84-92 | the suffix is chosen from the unrounded number, then the quotient is rounded | 999999 prints "1000.0K"; 999999999 prints "1000.00M" | a mantissa below 1000, so "1.00M" and "1.00B" | not executed; medium (reals, ties rounded up) | ImpactSite.FormatLargeNumberPrintsThousandK | ImpactSite.FormatLargeNumberCorrected |
