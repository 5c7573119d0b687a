/** The MyK3SPlugin scheduler plugin: a feasibility filter that admits a pod
    to a node on spare CPU and refuses to co-locate two pods of the same
    application, and a min-max normalisation of the per-node scores.

    Kubernetes quantities are integers in one fixed unit (millicores for CPU,
    bytes for memory); a resource list is a map from resource name to
    quantity, where a missing name reads as the zero quantity, as a Go map
    lookup of `resource.Quantity` does. */
module Plugins {
  import GoInt

  /** Name under which the plugin is registered. */
  const NAME: string := "MyK3SPlugin"

  const RESOURCE_CPU: string := "cpu"
  const RESOURCE_MEMORY: string := "memory"
  const APPLICATION_LABEL: string := "applicationName"

  /** framework.MaxNodeScore */
  const MAX_NODE_SCORE: nat := 100

  // ---------------------------------------------------------------------
  // Data model
  // ---------------------------------------------------------------------

  type ResourceList = map<string, int>

  datatype Container = Container(requests: ResourceList)

  datatype Pod = Pod(name: string, labels: map<string, string>, containers: seq<Container>)

  datatype Node = Node(name: string, capacity: ResourceList)

  /** A node together with the pods already bound to it. */
  datatype NodeInfo = NodeInfo(node: Node, pods: seq<Pod>)

  /** The framework status `Filter` returns: Success, or Unschedulable with
      one of the plugin's two reasons. */
  datatype Status = Success | NotEnoughResources(application: string) | AlreadyExists
  {
    /** The reason strings handed to framework.NewStatus: none on success,
        at least one on every refusal. */
    function Reasons(): (r: seq<string>)
      ensures r == [] <==> Success?
    {
      match this
      case Success => []
      case NotEnoughResources(app) => ["Not enough resources to run application: ", app]
      case AlreadyExists => ["Application already exists on this node"]
    }
  }

  /** One entry of framework.NodeScoreList. */
  datatype NodeScore = NodeScore(name: string, score: int)

  // ---------------------------------------------------------------------
  // Filter: resource accounting
  // ---------------------------------------------------------------------

  /** Looking a resource up in a resource list; a missing entry is zero. */
  function Quantity(m: ResourceList, resource: string): int {
    if resource in m then m[resource] else 0
  }

  /** Every bound pod has a first container, which the node-side accounting
      reads. */
  predicate BoundPodsHaveContainers(pods: seq<Pod>) {
    forall j :: 0 <= j < |pods| ==> |pods[j].containers| > 0
  }

  /** What the node believes its bound pods consume of `resource`: the request
      of each bound pod's FIRST container only, summed over the bound pods. */
  function NodeRequested(pods: seq<Pod>, resource: string): int
    requires BoundPodsHaveContainers(pods)
  {
    if pods == [] then 0
    else NodeRequested(pods[..|pods| - 1], resource)
         + Quantity(pods[|pods| - 1].containers[0].requests, resource)
  }

  /** What a pod asks for of `resource`: the requests of ALL its containers. */
  function PodRequested(containers: seq<Container>, resource: string): int {
    if containers == [] then 0
    else PodRequested(containers[..|containers| - 1], resource)
         + Quantity(containers[|containers| - 1].requests, resource)
  }

  /** CPU capacity of the node minus what its bound pods consume. */
  function AvailableCpu(nodeInfo: NodeInfo): int
    requires BoundPodsHaveContainers(nodeInfo.pods)
  {
    Quantity(nodeInfo.node.capacity, RESOURCE_CPU) - NodeRequested(nodeInfo.pods, RESOURCE_CPU)
  }

  /** The CPU test: available CPU strictly above the pod's total request. */
  predicate CpuSufficient(pod: Pod, nodeInfo: NodeInfo)
    requires BoundPodsHaveContainers(nodeInfo.pods)
  {
    AvailableCpu(nodeInfo) > PodRequested(pod.containers, RESOURCE_CPU)
  }

  // ---------------------------------------------------------------------
  // Filter: co-location
  // ---------------------------------------------------------------------

  /** `pod.Labels["applicationName"]`: the empty string when the label is absent. */
  function ApplicationName(labels: map<string, string>): (app: string)
    ensures APPLICATION_LABEL in labels ==> app == labels[APPLICATION_LABEL]
    ensures app != "" ==> APPLICATION_LABEL in labels
  {
    if APPLICATION_LABEL in labels then labels[APPLICATION_LABEL] else ""
  }

  /** A bound pod runs application `app` when it carries the label and the
      label's value is `app`; a pod without the label runs none. */
  predicate RunsApplication(p: Pod, app: string) {
    APPLICATION_LABEL in p.labels && p.labels[APPLICATION_LABEL] == app
  }

  predicate Colocated(pods: seq<Pod>, app: string) {
    exists j :: 0 <= j < |pods| && RunsApplication(pods[j], app)
  }

  /** The decision `Filter` reaches: the CPU test first, then co-location.
      A refusal for resources names the candidate's application; each
      outcome carries the plugin's reason strings. */
  function Decision(pod: Pod, nodeInfo: NodeInfo): (status: Status)
    requires BoundPodsHaveContainers(nodeInfo.pods)
    ensures status.NotEnoughResources? ==> status.application == ApplicationName(pod.labels)
    ensures status.NotEnoughResources? ==>
      status.Reasons() == ["Not enough resources to run application: ", ApplicationName(pod.labels)]
    ensures status.AlreadyExists? ==> status.Reasons() == ["Application already exists on this node"]
  {
    if CpuSufficient(pod, nodeInfo) then
      if Colocated(nodeInfo.pods, ApplicationName(pod.labels)) then AlreadyExists else Success
    else
      NotEnoughResources(ApplicationName(pod.labels))
  }

  /** Decides whether the node can take the pod. The memory the bound pods
      consume is accumulated and subtracted from the capacity as in the
      plugin, but never consulted. */
  method Filter(pod: Pod, nodeInfo: NodeInfo) returns (status: Status)
    requires BoundPodsHaveContainers(nodeInfo.pods)
    ensures status == Decision(pod, nodeInfo)
  {
    var pods := nodeInfo.pods;
    var totalNodeCpu := Quantity(nodeInfo.node.capacity, RESOURCE_CPU);
    var totalNodeMemory := Quantity(nodeInfo.node.capacity, RESOURCE_MEMORY);

    var requestedCpu, requestedMemory := 0, 0;
    for i := 0 to |pods|
      invariant requestedCpu == NodeRequested(pods[..i], RESOURCE_CPU)
      invariant requestedMemory == NodeRequested(pods[..i], RESOURCE_MEMORY)
    {
      assert pods[..i + 1][..i] == pods[..i];
      var requests := pods[i].containers[0].requests;
      requestedCpu := requestedCpu + Quantity(requests, RESOURCE_CPU);
      requestedMemory := requestedMemory + Quantity(requests, RESOURCE_MEMORY);
    }
    assert pods[..|pods|] == pods;

    var availableCpu := totalNodeCpu - requestedCpu;
    var availableMemory := totalNodeMemory - requestedMemory;

    var podCpu := 0;
    for i := 0 to |pod.containers|
      invariant podCpu == PodRequested(pod.containers[..i], RESOURCE_CPU)
    {
      assert pod.containers[..i + 1][..i] == pod.containers[..i];
      if RESOURCE_CPU in pod.containers[i].requests {
        podCpu := podCpu + pod.containers[i].requests[RESOURCE_CPU];
      }
    }
    assert pod.containers[..|pod.containers|] == pod.containers;

    var app := ApplicationName(pod.labels);
    if availableCpu > podCpu {
      for i := 0 to |pods|
        invariant forall j :: 0 <= j < i ==> !RunsApplication(pods[j], app)
      {
        var labels := pods[i].labels;
        if APPLICATION_LABEL in labels && labels[APPLICATION_LABEL] == app {
          return AlreadyExists;
        }
      }
      return Success;
    } else {
      return NotEnoughResources(app);
    }
  }

  // ---------------------------------------------------------------------
  // Filter: properties of the decision
  // ---------------------------------------------------------------------

  /** The node is reported short of resources exactly when the available CPU
      is at most the pod's request; equality rejects. This holds whether or
      not the application is already on the node, so the resource check
      takes priority over co-location. */
  lemma ResourceRejection(pod: Pod, nodeInfo: NodeInfo)
    requires BoundPodsHaveContainers(nodeInfo.pods)
    ensures Decision(pod, nodeInfo).NotEnoughResources?
        <==> Quantity(nodeInfo.node.capacity, RESOURCE_CPU) - NodeRequested(nodeInfo.pods, RESOURCE_CPU)
             <= PodRequested(pod.containers, RESOURCE_CPU)
    ensures Decision(pod, nodeInfo).NotEnoughResources? ==>
      Decision(pod, nodeInfo).Reasons() == ["Not enough resources to run application: ", ApplicationName(pod.labels)]
  {
  }

  /** With enough CPU, the node is refused exactly when a bound pod carries the
      candidate's application label value. */
  lemma CoLocationRejection(pod: Pod, nodeInfo: NodeInfo)
    requires BoundPodsHaveContainers(nodeInfo.pods)
    requires CpuSufficient(pod, nodeInfo)
    ensures Decision(pod, nodeInfo) == AlreadyExists
        <==> exists j :: 0 <= j < |nodeInfo.pods| && APPLICATION_LABEL in nodeInfo.pods[j].labels
               && nodeInfo.pods[j].labels[APPLICATION_LABEL] == ApplicationName(pod.labels)
  {
  }

  /** The pod is admitted exactly when CPU suffices and no bound pod runs the
      same application. */
  lemma Admission(pod: Pod, nodeInfo: NodeInfo)
    requires BoundPodsHaveContainers(nodeInfo.pods)
    ensures Decision(pod, nodeInfo) == Success
        <==> Quantity(nodeInfo.node.capacity, RESOURCE_CPU) - NodeRequested(nodeInfo.pods, RESOURCE_CPU)
               > PodRequested(pod.containers, RESOURCE_CPU)
             && forall j :: 0 <= j < |nodeInfo.pods| ==>
                  !(APPLICATION_LABEL in nodeInfo.pods[j].labels
                    && nodeInfo.pods[j].labels[APPLICATION_LABEL] == ApplicationName(pod.labels))
  {
  }

  /** A candidate without the label is compared as "": it is kept off the node
      only by a bound pod whose label is present and empty, never by a bound
      pod without the label. */
  lemma UnlabelledCandidate(pod: Pod, nodeInfo: NodeInfo)
    requires BoundPodsHaveContainers(nodeInfo.pods)
    requires APPLICATION_LABEL !in pod.labels
    requires CpuSufficient(pod, nodeInfo)
    ensures Decision(pod, nodeInfo) == AlreadyExists
        <==> exists j :: 0 <= j < |nodeInfo.pods| && APPLICATION_LABEL in nodeInfo.pods[j].labels
               && nodeInfo.pods[j].labels[APPLICATION_LABEL] == ""
  {
  }

  /** Bound pods that do not carry the label never keep a pod off the node. */
  lemma UnlabelledBoundPodsNeverMatch(pod: Pod, nodeInfo: NodeInfo)
    requires BoundPodsHaveContainers(nodeInfo.pods)
    requires forall j :: 0 <= j < |nodeInfo.pods| ==> APPLICATION_LABEL !in nodeInfo.pods[j].labels
    ensures Decision(pod, nodeInfo) != AlreadyExists
  {
  }

  /** The node-side total depends only on the first container of each bound
      pod, and only on its request for `resource`. */
  lemma {:induction false} NodeRequestedReadsFirstContainers(pods: seq<Pod>, pods': seq<Pod>, resource: string)
    requires BoundPodsHaveContainers(pods) && BoundPodsHaveContainers(pods')
    requires |pods| == |pods'|
    requires forall j :: 0 <= j < |pods| ==>
      Quantity(pods[j].containers[0].requests, resource) == Quantity(pods'[j].containers[0].requests, resource)
    ensures NodeRequested(pods, resource) == NodeRequested(pods', resource)
  {
    if pods != [] {
      NodeRequestedReadsFirstContainers(pods[..|pods| - 1], pods'[..|pods'| - 1], resource);
    }
  }

  /** With non-negative first-container requests, the node-side total is
      non-negative. */
  lemma {:induction false} NodeRequestedNonNegative(pods: seq<Pod>, resource: string)
    requires BoundPodsHaveContainers(pods)
    requires forall j :: 0 <= j < |pods| ==> Quantity(pods[j].containers[0].requests, resource) >= 0
    ensures NodeRequested(pods, resource) >= 0
  {
    if pods != [] {
      NodeRequestedNonNegative(pods[..|pods| - 1], resource);
    }
  }

  /** With non-negative container requests, the pod's total is non-negative. */
  lemma {:induction false} PodRequestedNonNegative(cs: seq<Container>, resource: string)
    requires forall j :: 0 <= j < |cs| ==> Quantity(cs[j].requests, resource) >= 0
    ensures PodRequested(cs, resource) >= 0
  {
    if cs != [] {
      PodRequestedNonNegative(cs[..|cs| - 1], resource);
    }
  }

  /** The pod-side total depends only on each container's request for
      `resource`. */
  lemma {:induction false} PodRequestedReadsResource(cs: seq<Container>, cs': seq<Container>, resource: string)
    requires |cs| == |cs'|
    requires forall j :: 0 <= j < |cs| ==> Quantity(cs[j].requests, resource) == Quantity(cs'[j].requests, resource)
    ensures PodRequested(cs, resource) == PodRequested(cs', resource)
  {
    if cs != [] {
      PodRequestedReadsResource(cs[..|cs| - 1], cs'[..|cs'| - 1], resource);
    }
  }

  /** Only the first container of a bound pod is counted: bound pods that
      differ in their further containers lead to the same decision. */
  lemma OnlyFirstContainerCounted(pod: Pod, nodeInfo: NodeInfo, nodeInfo': NodeInfo)
    requires BoundPodsHaveContainers(nodeInfo.pods) && BoundPodsHaveContainers(nodeInfo'.pods)
    requires nodeInfo'.node == nodeInfo.node && |nodeInfo'.pods| == |nodeInfo.pods|
    requires forall j :: 0 <= j < |nodeInfo.pods| ==>
      nodeInfo'.pods[j].labels == nodeInfo.pods[j].labels
      && nodeInfo'.pods[j].containers[0] == nodeInfo.pods[j].containers[0]
    ensures Decision(pod, nodeInfo') == Decision(pod, nodeInfo)
  {
    NodeRequestedReadsFirstContainers(nodeInfo.pods, nodeInfo'.pods, RESOURCE_CPU);
    assert Colocated(nodeInfo'.pods, ApplicationName(pod.labels)) == Colocated(nodeInfo.pods, ApplicationName(pod.labels)) by {
      forall j | 0 <= j < |nodeInfo.pods|
        ensures RunsApplication(nodeInfo'.pods[j], ApplicationName(pod.labels))
             == RunsApplication(nodeInfo.pods[j], ApplicationName(pod.labels))
      {
      }
    }
  }

  /** Two resource lists that agree on everything but memory. */
  predicate SameButMemory(m: ResourceList, m': ResourceList) {
    m - {RESOURCE_MEMORY} == m' - {RESOURCE_MEMORY}
  }

  lemma SameButMemoryCpu(m: ResourceList, m': ResourceList)
    requires SameButMemory(m, m')
    ensures Quantity(m, RESOURCE_CPU) == Quantity(m', RESOURCE_CPU)
  {
    assert RESOURCE_CPU != RESOURCE_MEMORY;
    assert RESOURCE_CPU in m <==> RESOURCE_CPU in m - {RESOURCE_MEMORY};
    assert RESOURCE_CPU in m' <==> RESOURCE_CPU in m' - {RESOURCE_MEMORY};
    if RESOURCE_CPU in m {
      assert m[RESOURCE_CPU] == (m - {RESOURCE_MEMORY})[RESOURCE_CPU];
      assert m'[RESOURCE_CPU] == (m' - {RESOURCE_MEMORY})[RESOURCE_CPU];
    }
  }

  /** Containers that agree position by position on everything but memory. */
  predicate ContainersSameButMemory(cs: seq<Container>, cs': seq<Container>) {
    |cs| == |cs'| && forall j :: 0 <= j < |cs| ==> SameButMemory(cs[j].requests, cs'[j].requests)
  }

  /** Memory never decides: the node's memory capacity, the bound pods' memory
      requests and the candidate's memory requests can all change without
      changing the decision. */
  lemma MemoryNeverDecides(pod: Pod, nodeInfo: NodeInfo, pod': Pod, nodeInfo': NodeInfo)
    requires BoundPodsHaveContainers(nodeInfo.pods) && BoundPodsHaveContainers(nodeInfo'.pods)
    requires pod'.labels == pod.labels && ContainersSameButMemory(pod.containers, pod'.containers)
    requires SameButMemory(nodeInfo.node.capacity, nodeInfo'.node.capacity)
    requires |nodeInfo'.pods| == |nodeInfo.pods|
    requires forall j :: 0 <= j < |nodeInfo.pods| ==>
      nodeInfo'.pods[j].labels == nodeInfo.pods[j].labels
      && ContainersSameButMemory(nodeInfo.pods[j].containers, nodeInfo'.pods[j].containers)
    ensures Decision(pod', nodeInfo') == Decision(pod, nodeInfo)
  {
    SameButMemoryCpu(nodeInfo.node.capacity, nodeInfo'.node.capacity);
    forall j | 0 <= j < |nodeInfo.pods|
      ensures Quantity(nodeInfo.pods[j].containers[0].requests, RESOURCE_CPU)
           == Quantity(nodeInfo'.pods[j].containers[0].requests, RESOURCE_CPU)
    {
      SameButMemoryCpu(nodeInfo.pods[j].containers[0].requests, nodeInfo'.pods[j].containers[0].requests);
    }
    NodeRequestedReadsFirstContainers(nodeInfo.pods, nodeInfo'.pods, RESOURCE_CPU);
    forall j | 0 <= j < |pod.containers|
      ensures Quantity(pod.containers[j].requests, RESOURCE_CPU) == Quantity(pod'.containers[j].requests, RESOURCE_CPU)
    {
      SameButMemoryCpu(pod.containers[j].requests, pod'.containers[j].requests);
    }
    PodRequestedReadsResource(pod.containers, pod'.containers, RESOURCE_CPU);
    assert Colocated(nodeInfo'.pods, ApplicationName(pod.labels)) == Colocated(nodeInfo.pods, ApplicationName(pod.labels)) by {
      forall j | 0 <= j < |nodeInfo.pods|
        ensures RunsApplication(nodeInfo'.pods[j], ApplicationName(pod.labels))
             == RunsApplication(nodeInfo.pods[j], ApplicationName(pod.labels))
      {
      }
    }
  }

  /** The containers of `cs` that declare a CPU request. */
  function WithCpuRequest(cs: seq<Container>): (r: seq<Container>)
    ensures forall j :: 0 <= j < |r| ==> RESOURCE_CPU in r[j].requests
  {
    if cs == [] then []
    else if RESOURCE_CPU in cs[|cs| - 1].requests then WithCpuRequest(cs[..|cs| - 1]) + [cs[|cs| - 1]]
    else WithCpuRequest(cs[..|cs| - 1])
  }

  /** A container without a CPU request adds nothing to the pod's total: the
      total is the sum over the containers that declare one. */
  lemma {:induction false} MissingCpuRequestCountsZero(cs: seq<Container>)
    ensures PodRequested(cs, RESOURCE_CPU) == PodRequested(WithCpuRequest(cs), RESOURCE_CPU)
  {
    if cs != [] {
      var init, last := cs[..|cs| - 1], cs[|cs| - 1];
      MissingCpuRequestCountsZero(init);
      if RESOURCE_CPU in last.requests {
        var w := WithCpuRequest(init) + [last];
        assert w[..|w| - 1] == WithCpuRequest(init);
      }
    }
  }

  /** A bound pod whose first container declares no CPU request consumes no
      CPU in the node's accounting. */
  lemma BoundPodWithoutCpuRequest(pods: seq<Pod>, p: Pod)
    requires BoundPodsHaveContainers(pods) && |p.containers| > 0
    requires RESOURCE_CPU !in p.containers[0].requests
    ensures BoundPodsHaveContainers(pods + [p])
    ensures NodeRequested(pods + [p], RESOURCE_CPU) == NodeRequested(pods, RESOURCE_CPU)
  {
    assert (pods + [p])[..|pods|] == pods;
  }

  // ---------------------------------------------------------------------
  // NormalizeScore: the range of the scores
  // ---------------------------------------------------------------------

  /** The plugin's `highest`: starts at 0 and rises to any larger score. */
  function Highest(s: seq<NodeScore>): (h: int)
    ensures h >= 0
    ensures forall k :: 0 <= k < |s| ==> s[k].score <= h
    ensures h == 0 || exists k :: 0 <= k < |s| && s[k].score == h
  {
    if s == [] then 0
    else
      var h := Highest(s[..|s| - 1]);
      if s[|s| - 1].score > h then s[|s| - 1].score else h
  }

  /** The plugin's `lowest` scan: starts at `start` and falls to any smaller
      score. */
  function LowestFrom(s: seq<NodeScore>, start: int): (l: int)
    ensures l <= start
    ensures forall k :: 0 <= k < |s| ==> l <= s[k].score
    ensures l == start || exists k :: 0 <= k < |s| && s[k].score == l
  {
    if s == [] then start
    else
      var l := LowestFrom(s[..|s| - 1], start);
      if s[|s| - 1].score < l then s[|s| - 1].score else l
  }

  /** `lowest`, seeded with the first score: the minimum score. */
  function Lowest(s: seq<NodeScore>): (l: int)
    requires |s| > 0
    ensures forall k :: 0 <= k < |s| ==> l <= s[k].score
    ensures exists k :: 0 <= k < |s| && s[k].score == l
  {
    LowestFrom(s, s[0].score)
  }

  /** The pair (lowest, highest) after the tie rule. Its width is at least 1,
      so the rescaling never divides by zero, and every score lies in it. */
  function Range(s: seq<NodeScore>): (r: (int, int))
    requires |s| > 0
    ensures r.1 - r.0 >= 1
    ensures forall k :: 0 <= k < |s| ==> r.0 <= s[k].score <= r.1
  {
    var lowest, highest := Lowest(s), Highest(s);
    if highest == lowest then (lowest - 1, highest) else (lowest, highest)
  }

  /** Scans the scores for (lowest, highest), seeded as the plugin seeds them. */
  method ScoreRange(scores: array<NodeScore>) returns (lowest: int, highest: int)
    requires scores.Length > 0
    ensures lowest == Lowest(scores[..]) && highest == Highest(scores[..])
  {
    highest := 0;
    lowest := scores[0].score;
    for i := 0 to scores.Length
      invariant lowest == LowestFrom(scores[..i], scores[0].score)
      invariant highest == Highest(scores[..i])
    {
      assert scores[..i + 1][..i] == scores[..i];
      var nodeScore := scores[i];
      if nodeScore.score < lowest {
        lowest := nodeScore.score;
      }
      if nodeScore.score > highest {
        highest := nodeScore.score;
      }
    }
    assert scores[..scores.Length] == scores[..];
  }

  // ---------------------------------------------------------------------
  // NormalizeScore: rescaling
  // ---------------------------------------------------------------------

  /** `(score - lowest) * MaxNodeScore / (highest - lowest)` with Go's
      truncating division. */
  function Rescale(score: int, lowest: int, highest: int): int
    requires highest > lowest
  {
    GoInt.Quo((score - lowest) * MAX_NODE_SCORE, highest - lowest)
  }

  /** For a score at or above `lowest` the numerator is non-negative, so Go's
      truncating quotient is floor division. */
  lemma RescaleIsFloor(score: int, lowest: int, highest: int)
    requires lowest <= score && highest > lowest
    ensures Rescale(score, lowest, highest) == ((score - lowest) * MAX_NODE_SCORE) / (highest - lowest)
  {
    GoInt.QuoIsFloor((score - lowest) * MAX_NODE_SCORE, highest - lowest);
  }

  /** The score list after normalisation: same length, same names in the same
      order, every score rescaled into [0, MaxNodeScore]. */
  function Normalized(s: seq<NodeScore>): (r: seq<NodeScore>)
    requires |s| > 0
    ensures |r| == |s|
    ensures forall k :: 0 <= k < |s| ==> r[k].name == s[k].name
    ensures forall k :: 0 <= k < |s| ==> 0 <= r[k].score <= MAX_NODE_SCORE
  {
    var range := Range(s);
    var r := seq(|s|, k requires 0 <= k < |s| => s[k].(score := Rescale(s[k].score, range.0, range.1)));
    assert forall k :: 0 <= k < |s| ==> 0 <= r[k].score <= MAX_NODE_SCORE by {
      forall k | 0 <= k < |s| ensures 0 <= r[k].score <= MAX_NODE_SCORE {
        RescaleBounds(s[k].score, range.0, range.1);
      }
    }
    r
  }

  /** A score within [lowest, highest] rescales into [0, MaxNodeScore]:
      `lowest` to 0 and `highest` to MaxNodeScore. */
  lemma RescaleBounds(score: int, lowest: int, highest: int)
    requires lowest <= score <= highest && highest > lowest
    ensures 0 <= Rescale(score, lowest, highest) <= MAX_NODE_SCORE
    ensures score == lowest ==> Rescale(score, lowest, highest) == 0
    ensures score == highest ==> Rescale(score, lowest, highest) == MAX_NODE_SCORE
  {
    GoInt.QuoIsFloor((score - lowest) * MAX_NODE_SCORE, highest - lowest);
    GoInt.ScaledQuotientBounds(score - lowest, highest - lowest, MAX_NODE_SCORE);
  }

  /** Rescaling is monotone in the score. */
  lemma RescaleMonotone(a: int, b: int, lowest: int, highest: int)
    requires lowest <= a <= b && highest > lowest
    ensures Rescale(a, lowest, highest) <= Rescale(b, lowest, highest)
  {
    GoInt.MulMonotone(a - lowest, b - lowest, MAX_NODE_SCORE);
    GoInt.MulMonotone(0, a - lowest, MAX_NODE_SCORE);
    GoInt.DivMonotone((a - lowest) * MAX_NODE_SCORE, (b - lowest) * MAX_NODE_SCORE, highest - lowest);
  }

  lemma LowestAtMostHighest(s: seq<NodeScore>)
    requires |s| > 0
    ensures Lowest(s) <= Highest(s)
  {
    assert Lowest(s) <= s[0].score <= Highest(s);
  }

  /** Rescaling every entry with the scanned range after the tie rule gives
      the normalised list. */
  lemma NormalizedElementwise(s: seq<NodeScore>, t: seq<NodeScore>, scanned: int, lowest: int, highest: int)
    requires |s| > 0 && |t| == |s|
    requires scanned == Lowest(s) && highest == Highest(s)
    requires lowest == if highest == scanned then scanned - 1 else scanned
    requires highest > lowest
    requires forall k :: 0 <= k < |s| ==> t[k] == s[k].(score := Rescale(s[k].score, lowest, highest))
    ensures t == Normalized(s)
  {
    assert (lowest, highest) == Range(s);
  }

  /** The rewrite loop of NormalizeScore: every score in place becomes
      `(score - lowest) * MaxNodeScore / (highest - lowest)`, names and order
      untouched. */
  method RescaleAll(scores: array<NodeScore>, lowest: int, highest: int)
    requires highest > lowest
    modifies scores
    ensures forall k :: 0 <= k < scores.Length ==>
      scores[k] == old(scores[k]).(score := Rescale(old(scores[k]).score, lowest, highest))
  {
    for i := 0 to scores.Length
      invariant forall k :: 0 <= k < i ==>
        scores[k] == old(scores[k]).(score := Rescale(old(scores[k]).score, lowest, highest))
      invariant forall k :: i <= k < scores.Length ==> scores[k] == old(scores[k])
    {
      var nodeScore := scores[i];
      scores[i] := nodeScore.(score := GoInt.Quo((nodeScore.score - lowest) * MAX_NODE_SCORE, highest - lowest));
    }
  }

  /** Rewrites every score in place by the min-max rule, as NormalizeScore
      does. The list must be non-empty (the plugin reads `scores[0]`), and the
      scores are bounded so that no int64 intermediate overflows. */
  method NormalizeScore(scores: array<NodeScore>)
    requires scores.Length > 0
    requires ScoresInSafeRange(scores[..])
    modifies scores
    ensures scores[..] == Normalized(old(scores[..]))
  {
    ghost var raw := scores[..];
    var lowest, highest := ScoreRange(scores);
    ghost var scanned := lowest;
    LowestAtMostHighest(raw);
    if highest == lowest {
      lowest := lowest - 1;
    }
    RescaleAll(scores, lowest, highest);
    NormalizedElementwise(raw, scores[..], scanned, lowest, highest);
  }

  // ---------------------------------------------------------------------
  // NormalizeScore: properties
  // ---------------------------------------------------------------------

  /** Largest raw score magnitude for which (s - lowest) * MaxNodeScore stays
      within int64: floor((2^63 - 1) / 200). */
  const MAX_SAFE_SCORE: int := 46_116_860_184_273_879

  predicate ScoresInSafeRange(s: seq<NodeScore>) {
    forall k :: 0 <= k < |s| ==> -MAX_SAFE_SCORE <= s[k].score <= MAX_SAFE_SCORE
  }

  /** Under the score bound, every value the int64 code computes (the
      decremented `lowest`, the width, each numerator and each result) is
      representable, so the unbounded model agrees with the int64 code. */
  lemma NoInt64Overflow(s: seq<NodeScore>)
    requires |s| > 0 && ScoresInSafeRange(s)
    ensures GoInt.InInt64(Range(s).0) && GoInt.InInt64(Range(s).1)
    ensures GoInt.InInt64(Range(s).1 - Range(s).0)
    ensures forall k :: 0 <= k < |s| ==>
      GoInt.InInt64(s[k].score - Range(s).0)
      && GoInt.InInt64((s[k].score - Range(s).0) * MAX_NODE_SCORE)
      && GoInt.InInt64(Normalized(s)[k].score)
  {
    var lowest, highest := Lowest(s), Highest(s);
    var lo, hi := Range(s).0, Range(s).1;
    assert -MAX_SAFE_SCORE <= lowest;
    assert highest <= MAX_SAFE_SCORE;
    forall k | 0 <= k < |s|
      ensures 0 <= s[k].score - lo <= 2 * MAX_SAFE_SCORE
    {
      if highest == lowest {
        assert s[k].score - lo == 1;
      }
    }
    forall k | 0 <= k < |s|
      ensures GoInt.InInt64((s[k].score - lo) * MAX_NODE_SCORE)
    {
      GoInt.MulMonotone(0, s[k].score - lo, MAX_NODE_SCORE);
      GoInt.MulMonotone(s[k].score - lo, 2 * MAX_SAFE_SCORE, MAX_NODE_SCORE);
    }
  }

  /** Unless the tie rule fires, a minimal score normalises to 0. The tie rule
      fires only when every score is the same: so whenever two scores differ,
      the minimum maps to 0. */
  lemma MinimumMapsToZero(s: seq<NodeScore>, k: nat)
    requires k < |s|
    requires forall j :: 0 <= j < |s| ==> s[k].score <= s[j].score
    requires exists j :: 0 <= j < |s| && s[j].score != s[k].score
    ensures Normalized(s)[k].score == 0
  {
    var j :| 0 <= j < |s| && s[j].score != s[k].score;
    assert Lowest(s) == s[k].score;
    assert Highest(s) >= s[j].score > s[k].score;
    RescaleBounds(s[k].score, Range(s).0, Range(s).1);
  }

  /** A maximal score that is non-negative normalises to MaxNodeScore, whether
      or not the scores differ. */
  lemma MaximumMapsToMax(s: seq<NodeScore>, k: nat)
    requires k < |s|
    requires forall j :: 0 <= j < |s| ==> s[j].score <= s[k].score
    requires s[k].score >= 0
    ensures Normalized(s)[k].score == MAX_NODE_SCORE
  {
    assert Highest(s) == s[k].score;
    RescaleBounds(s[k].score, Range(s).0, Range(s).1);
  }

  /** The tie rule: when every score equals one non-negative value, every
      entry normalises to MaxNodeScore. */
  lemma AllEqualMapToMax(s: seq<NodeScore>)
    requires |s| > 0
    requires forall j :: 0 <= j < |s| ==> s[j].score == s[0].score
    requires s[0].score >= 0
    ensures forall j :: 0 <= j < |s| ==> Normalized(s)[j].score == MAX_NODE_SCORE
  {
    forall j | 0 <= j < |s| ensures Normalized(s)[j].score == MAX_NODE_SCORE {
      MaximumMapsToMax(s, j);
    }
  }

  /** Because `highest` starts at 0, a list whose scores are all the same
      negative value does not trip the tie rule; every entry normalises to 0. */
  lemma AllEqualNegativeMapToZero(s: seq<NodeScore>)
    requires |s| > 0
    requires forall j :: 0 <= j < |s| ==> s[j].score == s[0].score
    requires s[0].score < 0
    ensures forall j :: 0 <= j < |s| ==> Normalized(s)[j].score == 0
  {
    assert Highest(s) == 0;
    assert Lowest(s) == s[0].score;
    forall j | 0 <= j < |s| ensures Normalized(s)[j].score == 0 {
      RescaleBounds(s[j].score, Range(s).0, Range(s).1);
    }
  }

  /** Normalisation preserves the order of the scores: a raw score at most
      another normalises to at most the other's normalised score. */
  lemma NormalizedMonotone(s: seq<NodeScore>, a: nat, b: nat)
    requires a < |s| && b < |s|
    requires s[a].score <= s[b].score
    ensures Normalized(s)[a].score <= Normalized(s)[b].score
  {
    RescaleMonotone(s[a].score, s[b].score, Range(s).0, Range(s).1);
  }

  // ---------------------------------------------------------------------
  // Worked scenarios
  // ---------------------------------------------------------------------

  /** Capacity 4 CPU, one bound "web" pod requesting 1: a "web" pod requesting
      2 fits on CPU (3 > 2) but is refused for co-location; a "db" pod
      requesting 2 is admitted. */
  lemma ColocationScenario()
    ensures
      var node := NodeInfo(Node("n", map[RESOURCE_CPU := 4]),
                           [Pod("bound", map[APPLICATION_LABEL := "web"], [Container(map[RESOURCE_CPU := 1])])]);
      Decision(Pod("web", map[APPLICATION_LABEL := "web"], [Container(map[RESOURCE_CPU := 2])]), node) == AlreadyExists
      && Decision(Pod("db", map[APPLICATION_LABEL := "db"], [Container(map[RESOURCE_CPU := 2])]), node) == Success
  {
    var node := NodeInfo(Node("n", map[RESOURCE_CPU := 4]),
                         [Pod("bound", map[APPLICATION_LABEL := "web"], [Container(map[RESOURCE_CPU := 1])])]);
    var web := Pod("web", map[APPLICATION_LABEL := "web"], [Container(map[RESOURCE_CPU := 2])]);
    var db := Pod("db", map[APPLICATION_LABEL := "db"], [Container(map[RESOURCE_CPU := 2])]);
    assert NodeRequested(node.pods, RESOURCE_CPU) == 1;
    assert PodRequested(web.containers, RESOURCE_CPU) == 2 && PodRequested(db.containers, RESOURCE_CPU) == 2;
    assert RunsApplication(node.pods[0], "web");
    assert !RunsApplication(node.pods[0], "db");
  }

  /** Capacity 2 CPU, a bound pod requesting 1, a candidate requesting 2:
      available 1 is not above 2, so the node is short of resources. */
  lemma InsufficientScenario()
    ensures
      var node := NodeInfo(Node("n", map[RESOURCE_CPU := 2]), [Pod("bound", map[], [Container(map[RESOURCE_CPU := 1])])]);
      Decision(Pod("p", map[], [Container(map[RESOURCE_CPU := 2])]), node) == NotEnoughResources("")
  {
    var node := NodeInfo(Node("n", map[RESOURCE_CPU := 2]), [Pod("bound", map[], [Container(map[RESOURCE_CPU := 1])])]);
    var p := Pod("p", map[], [Container(map[RESOURCE_CPU := 2])]);
    assert NodeRequested(node.pods, RESOURCE_CPU) == 1;
    assert PodRequested(p.containers, RESOURCE_CPU) == 2;
  }

  /** A bound pod with two 1-CPU containers is accounted as 1 CPU, so on a
      3-CPU node a 1-CPU candidate is admitted although the containers
      together ask for 2. */
  lemma FirstContainerScenario()
    ensures
      var node := NodeInfo(Node("n", map[RESOURCE_CPU := 3]),
                           [Pod("bound", map[], [Container(map[RESOURCE_CPU := 1]), Container(map[RESOURCE_CPU := 1])])]);
      Decision(Pod("p", map[APPLICATION_LABEL := "db"], [Container(map[RESOURCE_CPU := 1])]), node) == Success
  {
    var node := NodeInfo(Node("n", map[RESOURCE_CPU := 3]),
                         [Pod("bound", map[], [Container(map[RESOURCE_CPU := 1]), Container(map[RESOURCE_CPU := 1])])]);
    var p := Pod("p", map[APPLICATION_LABEL := "db"], [Container(map[RESOURCE_CPU := 1])]);
    assert NodeRequested(node.pods, RESOURCE_CPU) == 1;
    assert PodRequested(p.containers, RESOURCE_CPU) == 1;
    assert !RunsApplication(node.pods[0], "db");
  }

  /** Scores {A: 10, B: 90, C: 50} normalise to {A: 0, B: 100, C: 50}, and
      {A: 42, B: 42} to {A: 100, B: 100}. */
  lemma NormalizeScenarios()
    ensures Normalized([NodeScore("A", 10), NodeScore("B", 90), NodeScore("C", 50)])
         == [NodeScore("A", 0), NodeScore("B", 100), NodeScore("C", 50)]
    ensures Normalized([NodeScore("A", 42), NodeScore("B", 42)]) == [NodeScore("A", 100), NodeScore("B", 100)]
  {
    var s := [NodeScore("A", 10), NodeScore("B", 90), NodeScore("C", 50)];
    assert Lowest(s) == 10 && Highest(s) == 90;
    var t := [NodeScore("A", 42), NodeScore("B", 42)];
    assert Lowest(t) == 42 && Highest(t) == 42;
  }
}
