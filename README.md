# SDU battery cycle reconstruction and cleaning, in Dafny

This project models the per-battery core of the SDU preprocessor
(`preprocess_SDU.py`). For one battery, the preprocessor takes the raw tester
samples (time, raw cycle label, current, voltage), sorts them by time (not
modelled: the model takes the samples in sorted order), and then does the
following:

1. It relabels the cycle labels in place with `organize_cycle_index`. The raw
   label is used only to detect where a new cycle starts. The counter starts
   at the first raw label and goes up by one at every change.
2. It groups the samples by the relabelled index. Because that index never
   decreases, the groups are the maximal runs of equal labels. The groups are
   numbered from 0, and `calc_Q` integrates each one twice: once for charge
   capacity and once for discharge capacity.
3. It computes each cycle's peak discharge capacity and applies a median
   filter. The window is 21 when there are at least 21 cycles, otherwise
   `min(n, 5)`. One global threshold is taken as the median of the absolute
   deviations. A cycle is kept when its deviation is strictly below three
   times that threshold and its peak is above 0.1 Ah. The survivors are
   renumbered 1..k in place.
4. It estimates the nominal capacity as the mean peak discharge capacity of
   the first five (or fewer) survivors.

Modules:

- `Stats` (`stats.dfy`) holds the functions the pipeline calls: `max` over a
  list, `min` of two numbers (the window size), `np.mean`, and `np.median`.
  `Least`, the smallest element of a list, is not called by the code; it is
  the lower bound in the nominal-capacity contract. The median averages the two middle values
  when the length is even.
- `Integrator` (`capacity.dfy`) models `calc_Q`. The specification function is
  `Capacity`, and the method `CalcQ` fills an array against it.
- `CycleIndex` (`cycle_index.dfy`) models `organize_cycle_index`. The
  specification function is `Organized`, and `OrganizeCycleIndex` is the
  in-place method.
- `Assembly` (`assembly.dfy`) defines samples and cycle records, the maximal
  runs, and the assembly loop.
- `MedianFilter` (`median_filter.dfy`) models `scipy.signal.medfilt` for odd
  windows: a centred window, zero padding, and the median of each window.
- `Cleaning` (`cleaning.dfy`) covers the peak series, the window choice, the
  threshold, the selection and renumbering loop, and the nominal capacity. It
  also holds `ProcessBattery`, which joins all the steps.

Points to note in the code:

- The relabelled index starts at the first raw label, not at 1.
- The deviation test is strict (`<`).
- An even median window (2 or 4 cycles) is not rounded down. `medfilt` rejects
  it with an error.
- Surviving cycles are renumbered 1..k.

## Model

| member | source | states |
|---|---|---|
| Integrator.Gain | preprocess_SDU.py:163-168 | the step at sample i is non-zero only for a charging current when integrating charge or a discharging current when integrating discharge, and it is non-negative when time does not go back |
| Integrator.Capacity | preprocess_SDU.py:161-168 | the capacity has one entry per current sample and starts at 0, so a one-sample cycle gives [0] |
| Integrator.CapacitySnoc | preprocess_SDU.py:162-168 | one more iteration of the loop appends the previous capacity plus the gain at the new sample |
| Integrator.CapacityPrefix | preprocess_SDU.py:162-168 | integrating a prefix of the samples gives the prefix of the capacity, because each entry depends only on earlier samples |
| Integrator.CapacityStep | preprocess_SDU.py:162-168 | every later entry is the previous entry plus I[i]·Δt/3600 (charge, I[i] > 0), −I[i]·Δt/3600 (discharge, I[i] < 0), or nothing, using the right-end current |
| Integrator.CapacityChangesOnlyOnSign | preprocess_SDU.py:163-168 | charge capacity changes only where I[i] > 0 and discharge capacity only where I[i] < 0 |
| Integrator.CapacityMonotone | preprocess_SDU.py:162-168 | with non-decreasing times, both charge and discharge capacity never decrease |
| Integrator.CapacityNonNegative | preprocess_SDU.py:161-168 | with non-decreasing times, every capacity entry is at least 0 |
| Integrator.CapacityAllZero | preprocess_SDU.py:161-168 | a cycle with no current of the selected sign after its first sample has an all-zero capacity |
| Integrator.ThreeSampleCycle | preprocess_SDU.py:156-169 | t = [0,1,2] s and I = [0,2,−3] A give charge [0, 2/3600, 2/3600] and discharge [0, 0, 3/3600] |
| Integrator.CalcQ | preprocess_SDU.py:156-169 | the loop that fills a zeroed array returns exactly `Capacity` of its inputs |
| CycleIndex.Organized | preprocess_SDU.py:177-183 | the relabelled array has the input's length and keeps the first raw label at position 0 |
| CycleIndex.OrganizedSnoc | preprocess_SDU.py:178-182 | one more iteration of the loop appends the previous output plus 1 if the raw label changed there, and plus 0 otherwise |
| CycleIndex.OrganizedStep | preprocess_SDU.py:178-182 | each later position is the previous output plus 1 exactly when the raw label changed there, and equal to the previous output otherwise |
| CycleIndex.OrganizedSameChanges | preprocess_SDU.py:178-182 | the output changes between two positions if and only if the raw labels do |
| CycleIndex.OrganizedMonotone | preprocess_SDU.py:177-182 | the output never decreases |
| CycleIndex.OrganizedCounts | preprocess_SDU.py:177-182 | position i holds the first raw label plus the number of label changes up to i |
| CycleIndex.OrganizedLast | preprocess_SDU.py:177-182 | the last position holds the first raw label plus the number of label changes |
| CycleIndex.OrganizedConstant | preprocess_SDU.py:177-182 | a constant labelling comes back unchanged |
| CycleIndex.OrganizedIdempotent | preprocess_SDU.py:177-183 | relabelling an already relabelled array changes nothing |
| CycleIndex.ResetExample | preprocess_SDU.py:172-183 | an instrument reset [5,5,5,5,5,5,2,2,2] becomes [5,5,5,5,5,5,6,6,6] |
| CycleIndex.OrganizeCycleIndex | preprocess_SDU.py:172-183 | the in-place loop leaves the array equal to `Organized` of its old contents; it needs a non-empty array because it reads position 0 |
| Assembly.RunEnd | preprocess_SDU.py:78 | a run starting at s is non-empty, holds one label, and ends at the end of the array or at a change of label |
| Assembly.RunsFrom | preprocess_SDU.py:78 | the runs cover the samples in order, without gaps or overlaps, each holds one label, and each boundary is a change of label |
| Assembly.Runs | preprocess_SDU.py:78 | the cycles are the maximal runs of equal labels and partition all samples |
| Assembly.RunsAreGroups | preprocess_SDU.py:78 | for a non-decreasing key, a sample is in run k if and only if its label is run k's label, and run labels strictly increase, so grouping by key gives the runs in order |
| Assembly.RunLabels | preprocess_SDU.py:69-78 | over relabelled indices, the run numbered k by `enumerate` carries the first raw label plus k |
| Assembly.RunCount | preprocess_SDU.py:69-78 | there is one more assembled cycle than there are raw label changes |
| Assembly.AssembleCycles | preprocess_SDU.py:78-94 | one fresh record per run, numbered from 0, with the run's time, current and voltage and its two integrated capacities |
| Assembly.AssembledShape | preprocess_SDU.py:79-94 | an assembled record's five columns all have the cycle's length, and both capacities start at 0 |
| Assembly.CycleRecord.constructor | preprocess_SDU.py:87-94 | a record holds its number and its five columns |
| MedianFilter.MedFilt | preprocess_SDU.py:109-112 | the filtered series has one value per peak |
| MedianFilter.MedFiltWindowOne | preprocess_SDU.py:112 | a window of 1 leaves the series unchanged |
| MedianFilter.MedFiltNonNegative | preprocess_SDU.py:109-112 | filtering non-negative peaks gives non-negative values |
| Stats.Max | preprocess_SDU.py:100 | `max` returns an element of the list that is at least every element |
| Stats.Sort | preprocess_SDU.py:114 | the ordering the median reads is ascending and a permutation of its input |
| Stats.SortedUnique | preprocess_SDU.py:114 | two ascending orderings of the same values are equal, so the median does not depend on the input order |
| Stats.MedianOfOrdering | preprocess_SDU.py:114 | the median is the middle element of any ascending ordering, or the mean of the two middle elements for an even length |
| Stats.MedianBounds | preprocess_SDU.py:114 | the median lies between any bounds of the values, so the median of non-negative values is non-negative |
| Stats.MedianSingleton | preprocess_SDU.py:114 | the median of one value is that value |
| Stats.MeanBounds | preprocess_SDU.py:130 | a mean lies between any lower and upper bound of its values |
| Stats.MeanAbove | preprocess_SDU.py:130 | a mean of values all above a bound is above that bound |
| Cleaning.Peak | preprocess_SDU.py:97-102 | a cycle's peak is an element of its discharge capacity and at least every element, or 0.0 for an empty list |
| Cleaning.PeakOfMonotone | preprocess_SDU.py:97-102 | the peak of a capacity that never decreases is its last entry |
| Cleaning.PeakDischarge | preprocess_SDU.py:84-102 | with non-decreasing times, a cycle's peak discharge capacity is its final discharge capacity and is non-negative |
| Cleaning.PeakSeries | preprocess_SDU.py:97-102 | the appending loop gives one peak per cycle, in order |
| Cleaning.KernelSize | preprocess_SDU.py:109-112 | the window is 21 for at least 21 cycles and never more than the number of cycles; it is even, which `medfilt` rejects, exactly for 2 and 4 cycles |
| Cleaning.Deviations | preprocess_SDU.py:114-115 | each deviation is non-negative, and it is zero exactly where a peak equals its filtered value |
| Cleaning.Threshold | preprocess_SDU.py:114 | the global threshold, the median of the deviations, is never negative |
| Cleaning.ShouldKeep | preprocess_SDU.py:115 | a threshold of zero or less rejects every cycle, and a cycle equal to its filtered value passes if and only if the threshold is positive |
| Cleaning.Kept | preprocess_SDU.py:117-122 | the kept indices are strictly increasing, so relative order is preserved, and each one passes the deviation test and has a peak above 0.1 |
| Cleaning.KeptExactly | preprocess_SDU.py:118-119 | a cycle is kept if and only if it passes the deviation test and its peak is above 0.1 |
| Cleaning.KeptNone | preprocess_SDU.py:118-119 | when no cycle passes the deviation test, nothing is kept |
| Cleaning.SelectClean | preprocess_SDU.py:117-122 | the loop collects exactly the kept cycles in order, renumbers them 1..k in place, and leaves the other cycles' numbers alone |
| Cleaning.ZeroThresholdKeepsNothing | preprocess_SDU.py:114-119 | a zero threshold keeps no cycle, because the deviation test is strict |
| Cleaning.Survivors | preprocess_SDU.py:109-122 | the survivors of a series with an odd window are increasing indices whose peaks exceed 0.1 |
| Cleaning.SingleCycleSkipped | preprocess_SDU.py:109-126 | a single-cycle battery never has a survivor: the window is 1, the deviation and threshold are 0, and the strict test fails |
| Cleaning.ThreeCycleBattery | preprocess_SDU.py:109-122 | peaks [2.0, 1.0, 1.9] give window 3, filtered series [1.0, 1.9, 1.0], threshold 0.9, and all three cycles survive |
| Cleaning.MonotoneSeriesSkipped | preprocess_SDU.py:109-126 | a decreasing series 3.0, 2.0, 1.0 filters to [2.0, 2.0, 1.0]; two deviations are exactly 0, so the threshold is 0 and no cycle survives |
| Cleaning.CycleCapacitiesMonotone | preprocess_SDU.py:78-94 | for time-sorted samples, each assembled cycle's charge and discharge capacities never decrease, and its peak discharge capacity is its final, non-negative discharge capacity |
| Cleaning.NominalCapacity | preprocess_SDU.py:130 | for a non-empty list of initial capacities the nominal capacity lies between the smallest and the largest of them, and it exceeds 0.1 when they all do |
| Cleaning.AssembleBattery | preprocess_SDU.py:66-94 | relabelling then assembly yields one record per cycle of the battery, numbered from 0 |
| Cleaning.AssembledPeaks | preprocess_SDU.py:78-102 | the peak series of the assembled records is the battery's peak discharge series |
| Cleaning.SameSurvivors | preprocess_SDU.py:96-122 | the peak series read off the assembled records has the battery's number of cycles and selects the same survivors as the battery's peak discharge series |
| Cleaning.CleanCycles | preprocess_SDU.py:96-130 | an even window is rejected exactly for 2 or 4 cycles, and then no record changes; otherwise the battery is skipped exactly when no cycle survives, when cycles do survive they are returned in order, numbered 1..k, with a nominal capacity equal to the mean of the first min(5, k) survivors' peaks and above 0.1, and the records that do not survive keep their numbers |
| Cleaning.ProcessBattery | preprocess_SDU.py:66-130 | the whole per-battery pipeline: the window error for 2 or 4 cycles, the skip exactly when nothing survives, and otherwise the survivors (numbered 1..k, each assembled from its own samples) with a nominal capacity above 0.1 |

## Left out

- File discovery, `pd.read_csv` and its error handling, grouping by
  `Battery_ID`, `check_processed_file`, the dummy `date` column, and the
  battery counters are left out: they are I/O and dataframe plumbing. Because
  the date is constant, grouping on `['date', 'Cycle_Index']` is grouping on
  the relabelled index alone.
- Sorting by `Test_Time(s)` is left out; `ProcessBattery` takes samples in
  the order the sort produced. Monotonicity results assume time-sorted
  samples. The non-stable default sort order for equal times is not modelled.
- `BatteryData` construction, its fixed metadata, `dump_single_file` and all
  progress output are left out: these are foreign library calls and
  persistence. `ProcessBattery` returns the clean cycles and the nominal
  capacity instead.
- Floating point is modelled as `real`. Rounding in `I·Δt/3600` is not
  modelled. A monotone peak series filters to itself away from its
  zero-padded end, so the threshold is exactly 0 and no cycle survives; this
  is modelled (`ZeroThresholdKeepsNothing`, `MonotoneSeriesSkipped`). Only a
  small positive threshold that arises from rounding is not modelled.
- Cycle labels are modelled as integers. Float and missing (NaN) labels are
  not modelled. In the code, a NaN after position 0 compares unequal to the
  previous label and so starts a new cycle. A NaN first label makes every
  relabelled value NaN, and grouping then drops all the samples.
- `np.zeros_like(I)` takes the dtype of `I`, so an integer current column
  would truncate the capacity. Currents are modelled as reals.
- The empty-`Qd` branch at preprocess_SDU.py:104-106 is not modelled as a
  branch: it is unreachable for the integer labels modelled here, because a
  battery with at least one sample then has at least one cycle.
  `ProcessBattery` asserts this. In the code it is reached by a NaN first
  label.
- The 1.0 fallback at preprocess_SDU.py:130 is unreachable, because an empty
  clean list is skipped first at line 124. `NominalCapacity` keeps the fallback
  for completeness.
- `medfilt` raises an error for an even window, and nothing in `process`
  catches it, so the error ends the whole run. The model returns
  `KernelRejected` for the battery and does not model the end of the run.
- The warning `medfilt` gives for a window longer than the series cannot
  arise here, because the window never exceeds the number of cycles.
- The record objects alias between `cycles` and `clean_cycles`. `SelectClean`
  states the renumbering for both: the collected records are the original
  objects.
