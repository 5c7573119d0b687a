# MyK3SPlugin scheduler plugin, modelled in Dafny

This project models the decision logic of the `MyK3SPlugin` plugin for the
Kubernetes scheduler framework, file `plugins.go`. It has two parts.

- **Filter.** For one pod and one node, the plugin decides whether the node
  can take the pod. It first sums the CPU and memory requests of the pods
  already bound to the node. It reads only the first container of each bound
  pod. It subtracts that sum from the node's capacity. Then it sums the
  candidate pod's CPU requests over all of its containers. The node is refused
  with "Not enough resources to run application: " unless the available CPU is
  strictly greater than the pod's request. If CPU suffices, the node is refused
  with "Application already exists on this node" when a bound pod's
  `applicationName` label equals the candidate's. Otherwise the result is
  Success. The available memory is computed but never consulted.
- **NormalizeScore.** The plugin rescales the list of (node name, score)
  entries in place into [0, 100]. `highest` starts at 0 and `lowest` at the
  first score. If the two are equal, `lowest` is decremented. Each score
  becomes `(s - lowest) * 100 / (highest - lowest)`, using Go's integer
  division.

Files:

- `go_int.dfy`, module `GoInt`: the int64 range, Go's truncating quotient
  `Quo`, specified by its remainder, and the division lemmas the rescaling
  needs.
- `plugins.dfy`, module `Plugins`. It holds the data model: `Container`,
  `Pod`, `Node`, `NodeInfo`, `Status` with the plugin's reason strings, and
  `NodeScore`. It also holds the specification functions: `NodeRequested`,
  `PodRequested`, `Decision`, `Highest`, `Lowest`, `Range` and `Normalized`.
  The methods follow the Go loops: `Filter`, and `NormalizeScore` with its
  scan loop `ScoreRange` and its rewrite loop `RescaleAll`.
  The file ends with the lemmas about these functions.

Modelling choices:

- Kubernetes quantities are unbounded integers in one unit, such as millicores.
- A resource list is a `map<string, int>`. A missing key reads as 0, as a Go
  map lookup of `resource.Quantity` does.
- Labels are a `map<string, string>`. A missing `applicationName` on the
  candidate reads as `""`.
- `Filter` is proved equal to the function `Decision`. The properties of the
  decision are lemmas about `Decision`.
- `NormalizeScore` works on an `array<NodeScore>` and is proved to leave
  `Normalized(old(scores[..]))` in it. Its two loops are separate methods.
  The range scan `ScoreRange` changes nothing and is proved against `Lowest`
  and `Highest`. The rewrite loop `RescaleAll` is proved to apply `Rescale` to
  every entry and change nothing else.
- There is no class. The Go struct holds only the framework handle, and no
  operation updates it.
- The plugin name is the constant `Plugins.NAME`.

Where a caller might expect something other than what the code does, the
model follows the code:

- A caller might expect an empty score list to be reported as an error. The
  code reads `scores[0]` and would panic. `NormalizeScore` therefore requires a
  non-empty list.
- A caller might expect `highest` to be the true maximum raw score. The code
  starts it at 0, so for all-negative raw scores the maximum does not map to
  100. Likewise an all-equal negative list maps to 0, not to 100. See
  `MaximumMapsToMax` and `AllEqualNegativeMapToZero`. The scores this plugin's
  own `Score` produces are in 0..100, where the two readings agree.
- A caller might expect missing quantities and pods without containers to be
  reported as errors. The code treats a missing quantity as zero and a
  candidate pod without containers as requesting nothing. The model does the
  same. A bound pod without containers makes the code panic at
  `Containers[0]`, so `Filter` requires every bound pod to have a container.

## Model

| member | source | states |
|---|---|---|
| `Plugins.Status.Reasons` | plugins.go:86-91 | the reason strings given to the framework status: none exactly on Success, the plugin's message on each refusal |
| `Plugins.NodeRequested` | plugins.go:52-56 | the node-side consumption: the first-container request of each bound pod, summed, with a missing key as 0; its properties are `NodeRequestedNonNegative`, `NodeRequestedReadsFirstContainers` and `BoundPodWithoutCpuRequest` |
| `Plugins.NodeRequestedNonNegative` | plugins.go:52-56 | with non-negative first-container requests, the node-side consumption is non-negative |
| `Plugins.PodRequested` | plugins.go:66-71 | the candidate's request: every container's request, summed, with a missing key as 0; its properties are `PodRequestedNonNegative`, `PodRequestedReadsResource` and `MissingCpuRequestCountsZero` |
| `Plugins.PodRequestedNonNegative` | plugins.go:66-71 | with non-negative container requests, the candidate's request is non-negative |
| `Plugins.ApplicationName` | plugins.go:82 | `pod.Labels["applicationName"]`: the label's value when present; a non-empty result always comes from the label |
| `Plugins.Decision` | plugins.go:74-91 | the CPU test first, then co-location; a resources refusal names the candidate's application, and each refusal carries the plugin's reason strings |
| `Plugins.Filter` | plugins.go:36-93 | the status the plugin's loops and early returns produce is exactly `Decision(pod, nodeInfo)`; requires only that every bound pod has a first container |
| `Plugins.ResourceRejection` | plugins.go:45-74 | "Not enough resources" exactly when CPU capacity minus the bound pods' first-container CPU is at most the pod's total CPU (equality rejects), whatever the labels say; the reasons name the application |
| `Plugins.CoLocationRejection` | plugins.go:74-88 | with sufficient CPU, the node is refused as "already exists" exactly when some bound pod carries `applicationName` equal to the candidate's value |
| `Plugins.Admission` | plugins.go:74-89 | Success exactly when CPU capacity minus the bound pods' first-container CPU exceeds the pod's total CPU and no bound pod carries the label with the candidate's value |
| `Plugins.UnlabelledCandidate` | plugins.go:82 | a candidate without the label is compared as "": with enough CPU, it is refused exactly when some bound pod carries the label with an empty value |
| `Plugins.UnlabelledBoundPodsNeverMatch` | plugins.go:82 | bound pods without the label never cause an "already exists" refusal |
| `Plugins.NodeRequestedReadsFirstContainers` | plugins.go:52-56 | the node-side total depends only on the first container's request of each bound pod |
| `Plugins.PodRequestedReadsResource` | plugins.go:66-71 | the candidate's total depends only on each container's request for the resource |
| `Plugins.OnlyFirstContainerCounted` | plugins.go:52-56 | bound pods that differ only in containers after the first lead to the same decision |
| `Plugins.MemoryNeverDecides` | plugins.go:46-63 | changing the node's memory capacity and every memory request leaves the decision unchanged |
| `Plugins.MissingCpuRequestCountsZero` | plugins.go:66-71 | the candidate's CPU total equals the sum over only the containers that declare a CPU request |
| `Plugins.BoundPodWithoutCpuRequest` | plugins.go:52-54 | a bound pod whose first container declares no CPU request adds nothing to the node's CPU consumption |
| `Plugins.ColocationScenario` | plugins.go:74-88 | capacity 4 with a bound "web" pod using 1: a "web" pod asking 2 is refused for co-location, a "db" pod asking 2 is admitted |
| `Plugins.InsufficientScenario` | plugins.go:74-91 | capacity 2 with a bound pod using 1: a pod asking 2 is refused for resources |
| `Plugins.FirstContainerScenario` | plugins.go:52-56 | a bound pod with two 1-CPU containers is counted as 1 CPU, so a 1-CPU pod fits on a 3-CPU node |
| `Plugins.Highest` | plugins.go:109-119 | `highest` is at least 0 and at least every score, and it is either 0 or one of the scores |
| `Plugins.LowestFrom` | plugins.go:110-116 | the `lowest` scan result is at most its seed and every score, and it is the seed or one of the scores |
| `Plugins.Lowest` | plugins.go:110-116 | seeded with the first score, `lowest` is the minimum score |
| `Plugins.Range` | plugins.go:108-124 | after the tie rule, `highest - lowest >= 1`, so the division is safe, and every score lies in [lowest, highest] |
| `Plugins.ScoreRange` | plugins.go:108-120 | the scan loop over the array yields exactly `Lowest` and `Highest` of its contents |
| `Plugins.Normalized` | plugins.go:126-130 | the normalised list has the same length and the same names in the same order, and every score is in [0, 100] |
| `Plugins.Rescale` | plugins.go:128 | `(score - lowest) * MaxNodeScore / (highest - lowest)` with Go's truncating quotient; its properties are `RescaleIsFloor`, `RescaleBounds` and `RescaleMonotone` |
| `Plugins.RescaleIsFloor` | plugins.go:128 | for a score at or above `lowest`, the truncating quotient equals floor division |
| `Plugins.RescaleBounds` | plugins.go:128 | a score in [lowest, highest] rescales into [0, 100], with lowest going to 0 and highest to 100 |
| `Plugins.RescaleMonotone` | plugins.go:128 | rescaling is monotone in the score |
| `Plugins.RescaleAll` | plugins.go:127-130 | the rewrite loop: afterwards each entry keeps its name and position and its score is `Rescale` of its old score |
| `Plugins.NormalizeScore` | plugins.go:106-134 | on a non-empty list, the array afterwards holds `Normalized` of its old contents; only the scores change |
| `Plugins.NoInt64Overflow` | plugins.go:108-128 | for scores of magnitude at most `MAX_SAFE_SCORE`, every intermediate value and every result fits in int64 |
| `Plugins.MinimumMapsToZero` | plugins.go:122-128 | when the scores are not all equal, a minimal score normalises to 0 |
| `Plugins.MaximumMapsToMax` | plugins.go:109-128 | a maximal score that is non-negative normalises to 100 |
| `Plugins.AllEqualMapToMax` | plugins.go:122-128 | the tie rule: all scores equal and non-negative means every entry becomes 100 |
| `Plugins.AllEqualNegativeMapToZero` | plugins.go:109-128 | because `highest` starts at 0, all scores equal and negative means every entry becomes 0 |
| `Plugins.NormalizedMonotone` | plugins.go:127-128 | a raw score at most another normalises to at most the other's normalised score |
| `Plugins.NormalizeScenarios` | plugins.go:106-134 | {A:10, B:90, C:50} becomes {A:0, B:100, C:50}; {A:42, B:42} becomes {A:100, B:100} |
| `GoInt.Quo` | plugins.go:128 | Go's integer `/`: the remainder is smaller than the divisor in magnitude and is zero or has the dividend's sign |
| `GoInt.QuoIsFloor` | plugins.go:128 | with a non-negative dividend and a positive divisor, Go's quotient equals floor division |

## Left out

- `Score` (plugins.go:95-100): it seeds the global `math/rand` source from the clock and returns a random number in 0..100. Randomness and the clock have no deterministic model.
- Logging with `fmt.Println`: output only, with no effect on any result.
- `New`, `ScoreExtensions`, the `handle` field, `context.Context` and `CycleState`: framework registration and plumbing that no decision reads. The `Name` method is the constant `Plugins.NAME`.
- The internals of `resource.Quantity` (`Add`, `Sub`, `DeepCopy`, `Cmp`): a foreign library, modelled as exact integer addition, subtraction and comparison.
- The full `v1.Pod`, `v1.Node` and `NodeInfo` structures: reduced to names, label maps, container request maps and the capacity map.
- The framework `Status` codes: modelled as the three outcomes the plugin can produce. `NormalizeScore` always returns a nil status, so the model returns nothing.
- NormalizeScore: does not model the panic on an empty score list (`scores[0]`, plugins.go:110). It requires a non-empty list instead.
- Filter: does not model the panic on a bound pod with no containers (`Containers[0]`, plugins.go:53). It requires every bound pod to have a container instead.
- NormalizeScore: does not model int64 wrap-around in `(s - lowest) * MaxNodeScore`. Instead it requires every score to have magnitude at most `MAX_SAFE_SCORE`, and `NoInt64Overflow` shows that no int64 intermediate overflows under that bound.
- Concurrency: the scheduler may call `Filter` for many nodes at once. Each call only reads its inputs, so the model treats calls one at a time.
