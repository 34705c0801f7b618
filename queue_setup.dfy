/** What `createLogicalDevice` builds in both bootstraps, apart from the
    driver handles: the per-family queue requests. */
module QueueSetup {

  /** `VkDeviceQueueCreateInfo` without its float priority. */
  datatype QueueCreateInfo = QueueCreateInfo(queueFamilyIndex: nat, queueCount: nat)

  /** Why creating the logical device fails. */
  datatype DeviceError =
    | BadOptionalAccess            // `std::optional::value` on an empty optional
    | LogicalDeviceCreationFailed  // "failed to create logical device"
}
