/**
 * Physical-device selection (`Vulkan::create_physical_device`).
 *
 * The enumerated devices are plain values. The source keeps the devices that
 * support every required device extension, pairs each of them with its first
 * queue family that supports graphics and can present to the window surface
 * (dropping devices that have none), and takes the pair whose device type has
 * the lowest rank, the first such pair on a tie. No pair at all is a panic
 * (`unwrap` on `None`), modelled here as `None`.
 *
 * A device's index and a queue family's id are their positions in the
 * enumeration order, as they are for the graphics library.
 */
module DeviceSelection {
  import opened Wrappers

  type ExtensionName = string

  datatype DeviceType = DiscreteGpu | IntegratedGpu | VirtualGpu | Cpu | Other

  /** A queue family: whether it supports graphics, and the answer of the
      surface's support query for it (`None` when the query itself failed). */
  datatype QueueFamily = QueueFamily(supportsGraphics: bool, surfaceSupport: Option<bool>)

  datatype PhysicalDevice = PhysicalDevice(
    supportedExtensions: set<ExtensionName>,
    queueFamilies: seq<QueueFamily>,
    deviceType: DeviceType)

  /** A selected (device index, queue family id) pair. */
  datatype Choice = Choice(device: nat, queueFamily: nat)

  /** `choose_device_extensions`: only the swapchain extension is required. */
  const SwapchainExtension: ExtensionName := "khr_swapchain"
  const RequiredExtensions: set<ExtensionName> := {SwapchainExtension}

  /** The `min_by_key` key: lower is preferred. */
  function Rank(t: DeviceType): nat {
    match t
    case DiscreteGpu => 0
    case IntegratedGpu => 1
    case VirtualGpu => 2
    case Cpu => 3
    case Other => 4
  }

  /** The `find` predicate: graphics support, and a surface query that
      answered yes (a failed query counts as no, `unwrap_or(false)`). */
  predicate CanPresent(q: QueueFamily) {
    q.supportsGraphics && q.surfaceSupport.GetOr(false)
  }

  /** `queue_families().find(..)`: the id of the first family that can present. */
  function FindQueueFamily(qs: seq<QueueFamily>): (r: Option<nat>)
    ensures r.Some? ==> IsFirstPresentFamily(qs, r.value)
    ensures r.None? <==> forall k :: 0 <= k < |qs| ==> !CanPresent(qs[k])
  {
    if |qs| == 0 then None
    else if CanPresent(qs[0]) then Some(0)
    else match FindQueueFamily(qs[1..])
      case None => None
      case Some(j) => Some(j + 1)
  }

  /** The id `j` names the first family of `qs` that can present. */
  predicate IsFirstPresentFamily(qs: seq<QueueFamily>, j: nat) {
    j < |qs| && CanPresent(qs[j]) && forall k :: 0 <= k < j ==> !CanPresent(qs[k])
  }

  /** A device passes both filters of the selection. */
  predicate Qualifies(p: PhysicalDevice, required: set<ExtensionName>) {
    required <= p.supportedExtensions &&
    exists k :: 0 <= k < |p.queueFamilies| && CanPresent(p.queueFamilies[k])
  }

  function DeviceRank(devices: seq<PhysicalDevice>, i: nat): nat
    requires i < |devices|
  {
    Rank(devices[i].deviceType)
  }

  /** The independent description of the right answer: a qualifying device
      with its first presenting family, of minimum rank among all qualifying
      devices, and strictly better than every qualifying device before it. */
  predicate IsBestChoice(devices: seq<PhysicalDevice>, required: set<ExtensionName>, c: Choice) {
    c.device < |devices| &&
    Qualifies(devices[c.device], required) &&
    IsFirstPresentFamily(devices[c.device].queueFamilies, c.queueFamily) &&
    (forall i :: 0 <= i < |devices| && Qualifies(devices[i], required) ==>
       DeviceRank(devices, c.device) <= DeviceRank(devices, i)) &&
    (forall i :: 0 <= i < c.device && Qualifies(devices[i], required) ==>
       DeviceRank(devices, c.device) < DeviceRank(devices, i))
  }

  /** The `filter` and `filter_map` stages: the qualifying devices, in
      enumeration order, each paired with its first presenting family. */
  function Candidates(devices: seq<PhysicalDevice>, required: set<ExtensionName>): (cs: seq<Choice>)
    ensures forall j :: 0 <= j < |cs| ==>
      cs[j].device < |devices| &&
      Qualifies(devices[cs[j].device], required) &&
      IsFirstPresentFamily(devices[cs[j].device].queueFamilies, cs[j].queueFamily)
    ensures forall j, k :: 0 <= j < k < |cs| ==> cs[j].device < cs[k].device
  {
    if |devices| == 0 then []
    else
      var n := |devices| - 1;
      var p := devices[n];
      var rest := Candidates(devices[..n], required);
      if required <= p.supportedExtensions then
        match FindQueueFamily(p.queueFamilies)
        case Some(q) =>
          rest + [Choice(n, q)]
        case None => rest
      else rest
  }

  /** Every qualifying device is among the candidates. */
  lemma {:induction false} CandidatesComplete(devices: seq<PhysicalDevice>, required: set<ExtensionName>, i: nat)
    requires i < |devices| && Qualifies(devices[i], required)
    ensures exists j :: 0 <= j < |Candidates(devices, required)| && Candidates(devices, required)[j].device == i
    decreases |devices|
  {
    var n := |devices| - 1;
    var cs := Candidates(devices, required);
    var rest := Candidates(devices[..n], required);
    if i == n {
      assert cs[|cs| - 1].device == n;
    } else {
      assert devices[..n][i] == devices[i];
      CandidatesComplete(devices[..n], required, i);
      var j :| 0 <= j < |rest| && rest[j].device == i;
      assert cs[j] == rest[j];
    }
  }

  /** The `min_by_key` stage: a left fold that replaces the running minimum
      only by a strictly better candidate, so the first minimum wins. */
  function MinByRank(devices: seq<PhysicalDevice>, cs: seq<Choice>): (r: Option<Choice>)
    requires forall j :: 0 <= j < |cs| ==> cs[j].device < |devices|
    ensures r.None? <==> |cs| == 0
    ensures r.Some? ==> r.value.device < |devices|
    ensures r.Some? ==> forall j :: 0 <= j < |cs| ==>
      DeviceRank(devices, r.value.device) <= DeviceRank(devices, cs[j].device)
    ensures r.Some? ==> exists m :: (0 <= m < |cs| && cs[m] == r.value &&
      forall j :: 0 <= j < m ==> DeviceRank(devices, r.value.device) < DeviceRank(devices, cs[j].device))
  {
    if |cs| == 0 then None
    else
      var n := |cs| - 1;
      var last := cs[n];
      match MinByRank(devices, cs[..n])
      case None => Some(last)
      case Some(best) =>
        if DeviceRank(devices, last.device) < DeviceRank(devices, best.device) then Some(last)
        else Some(best)
  }

  /** `create_physical_device`: `None` is the panic of the final `unwrap`. */
  function SelectDevice(devices: seq<PhysicalDevice>, required: set<ExtensionName>): Option<Choice> {
    MinByRank(devices, Candidates(devices, required))
  }

  /** A qualifying device enumerated before the device of candidate `m`
      is a candidate before `m`. */
  lemma EarlierCandidate(devices: seq<PhysicalDevice>, required: set<ExtensionName>, m: nat, i: nat)
    requires m < |Candidates(devices, required)|
    requires i < Candidates(devices, required)[m].device
    requires Qualifies(devices[i], required)
    ensures exists j :: 0 <= j < m && Candidates(devices, required)[j].device == i
  {
    var cs := Candidates(devices, required);
    CandidatesComplete(devices, required, i);
    var j :| 0 <= j < |cs| && cs[j].device == i;
  }

  /** The selected pair has minimum rank among the candidates and is
      strictly better than every candidate before it. */
  lemma SelectedIsFirstMinimum(devices: seq<PhysicalDevice>, required: set<ExtensionName>, c: Choice)
    requires SelectDevice(devices, required) == Some(c)
    ensures c.device < |devices|
    ensures forall i :: 0 <= i < |devices| && Qualifies(devices[i], required) ==>
      DeviceRank(devices, c.device) <= DeviceRank(devices, i)
    ensures forall i :: 0 <= i < c.device && Qualifies(devices[i], required) ==>
      DeviceRank(devices, c.device) < DeviceRank(devices, i)
  {
    var cs := Candidates(devices, required);
    var m :| 0 <= m < |cs| && cs[m] == c &&
      forall j :: 0 <= j < m ==> DeviceRank(devices, c.device) < DeviceRank(devices, cs[j].device);
    forall i | 0 <= i < |devices| && Qualifies(devices[i], required)
      ensures DeviceRank(devices, c.device) <= DeviceRank(devices, i)
    {
      CandidatesComplete(devices, required, i);
      var j :| 0 <= j < |cs| && cs[j].device == i;
    }
    forall i | 0 <= i < c.device && Qualifies(devices[i], required)
      ensures DeviceRank(devices, c.device) < DeviceRank(devices, i)
    {
      EarlierCandidate(devices, required, m, i);
    }
  }

  /** Whatever the selection returns is the best choice: a device supporting
      the required extensions, its first presenting family, minimum rank,
      and no qualifying device of the same rank before it. */
  lemma SelectDeviceSound(devices: seq<PhysicalDevice>, required: set<ExtensionName>)
    ensures SelectDevice(devices, required).Some? ==>
      IsBestChoice(devices, required, SelectDevice(devices, required).value)
  {
    var r := SelectDevice(devices, required);
    if r.Some? {
      SelectedIsFirstMinimum(devices, required, r.value);
      var cs := Candidates(devices, required);
      var m :| 0 <= m < |cs| && cs[m] == r.value;
    }
  }

  /** Selection fails (the source panics) exactly when no device passes both
      filters. */
  lemma SelectDeviceFailsIff(devices: seq<PhysicalDevice>, required: set<ExtensionName>)
    ensures SelectDevice(devices, required).None? <==>
      forall i :: 0 <= i < |devices| ==> !Qualifies(devices[i], required)
  {
    var cs := Candidates(devices, required);
    if |cs| > 0 {
      assert Qualifies(devices[cs[0].device], required);
    } else {
      forall i | 0 <= i < |devices|
        ensures !Qualifies(devices[i], required)
      {
        if Qualifies(devices[i], required) {
          CandidatesComplete(devices, required, i);
        }
      }
    }
  }

  /** At most one pair meets the description, so the selection is determined
      by the enumeration alone. */
  lemma BestChoiceUnique(devices: seq<PhysicalDevice>, required: set<ExtensionName>, c1: Choice, c2: Choice)
    requires IsBestChoice(devices, required, c1) && IsBestChoice(devices, required, c2)
    ensures c1 == c2
  {
  }

  /** The selection returns a pair exactly when that pair is the best choice. */
  lemma SelectDeviceIsBestChoice(devices: seq<PhysicalDevice>, required: set<ExtensionName>, c: Choice)
    ensures SelectDevice(devices, required) == Some(c) <==> IsBestChoice(devices, required, c)
  {
    SelectDeviceSound(devices, required);
    if IsBestChoice(devices, required, c) {
      SelectDeviceFailsIff(devices, required);
      BestChoiceUnique(devices, required, c, SelectDevice(devices, required).value);
    }
  }

  /** A discrete GPU that qualifies is never passed over: the selected device
      is then a discrete GPU too. */
  lemma DiscreteGpuPreferred(devices: seq<PhysicalDevice>, required: set<ExtensionName>, i: nat)
    requires i < |devices| && Qualifies(devices[i], required)
    requires devices[i].deviceType == DiscreteGpu
    ensures SelectDevice(devices, required).Some?
    ensures devices[SelectDevice(devices, required).value.device].deviceType == DiscreteGpu
  {
    SelectDeviceFailsIff(devices, required);
    var c := SelectDevice(devices, required).value;
    SelectedIsFirstMinimum(devices, required, c);
    assert DeviceRank(devices, c.device) == 0;
  }

  /** With the source's required set, the selected device supports the
      swapchain extension and its chosen family supports graphics and answered
      the surface query with yes. */
  lemma SelectedDeviceCanPresent(devices: seq<PhysicalDevice>)
    ensures SelectDevice(devices, RequiredExtensions).Some? ==>
      var c := SelectDevice(devices, RequiredExtensions).value;
      c.device < |devices| &&
      SwapchainExtension in devices[c.device].supportedExtensions &&
      c.queueFamily < |devices[c.device].queueFamilies| &&
      devices[c.device].queueFamilies[c.queueFamily].supportsGraphics &&
      devices[c.device].queueFamilies[c.queueFamily].surfaceSupport == Some(true)
  {
    SelectDeviceSound(devices, RequiredExtensions);
  }
}
