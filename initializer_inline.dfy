/** The earliest, header-only bootstrap (Engine/Initializer/Initializer.hpp),
    whose `vulkan::selectPhysicalDevice` scores and ranks the devices in one
    inline loop and keeps the winner in a local variable. */
module InitializerInline {
  import opened Common
  import opened DeviceSelection

  /** The statements of the loop body that accumulate one device's score. */
  method AccumulateScore(device: DeviceProperties) returns (score: int)
    ensures score == Score(device)
  {
    score := 0;
    score := score + (if device.isDiscrete then DiscreteBonus else 0);
    score := AsInt32((score + device.maxImageDimension2D as int) % TWO_32);
    score := if !device.geometryShader then 0 else score;
  }

  /** `vulkan::selectPhysicalDevice`: fail before any scoring when no device is
      enumerated; otherwise accumulate each device's score, insert it into the
      multimap, and fail unless the top score is positive. The chosen handle is
      a local, so the outcome is all a caller observes. */
  method SelectPhysicalDevice(devices: seq<DeviceProperties>) returns (outcome: Outcome<SelectError>)
    ensures |devices| == 0 ==> outcome == Fail(NoVulkanDevice)
    ensures |devices| > 0 ==>
      (outcome == Pass <==> exists j :: 0 <= j < |devices| && Score(devices[j]) > 0)
    ensures |devices| > 0 && outcome != Pass ==> outcome == Fail(NoSuitableDevice)
  {
    if |devices| == 0 {
      return Fail(NoVulkanDevice);
    }
    var candidates: seq<Candidate> := [];
    for i := 0 to |devices|
      invariant TracksBest(devices, candidates, i)
    {
      var device := devices[i];
      var score := AccumulateScore(device);
      var c := Candidate(score, i);
      InsertStep(devices, candidates, i);
      candidates := Insert(candidates, c);
    }
    SelectedIffPositive(devices);
    var physicalDevice: Option<nat> := None;
    var top := candidates[|candidates| - 1];
    if top.score > 0 {
      physicalDevice := Some(top.device);
    } else {
      return Fail(NoSuitableDevice);
    }
    assert physicalDevice == SelectedDevice(devices);
    return Pass;
  }
}
