/** The entities the cost engine reads: an estimate, its resource rates,
    role mappings and line items. Persistence identifiers, audit fields and
    descriptive text that no computation reads are left out. */
module Models {
  import opened Wrappers
  import opened CaseInsensitiveMap

  datatype ResourceType = FTE | Contractor

  /** A priced resource. `sourceKey` is the stable identity that assignment
      maps refer to; it may be absent (`null`). */
  datatype ResourceRate = ResourceRate(
    role: string,
    rtype: ResourceType,
    dailyRate: real,
    hourlyRate: real,
    sourceKey: Option<string>)

  /** Redirects an allocation's role to the role a rate is priced under. */
  datatype RoleMapping = RoleMapping(sourceRole: string, targetRole: string)

  datatype ResourceAllocation = ResourceAllocation(role: string, hours: real)

  datatype NonFunctionalItem = NonFunctionalItem(title: string, allocations: seq<ResourceAllocation>)

  /** A functional line. `assignedResourceIds` is the stored assignment text
      (possibly in the legacy numeric form); `assignedResources` is the
      resource-key to utilisation-percent dictionary. */
  datatype FunctionalLineItem = FunctionalLineItem(
    title: string,
    sprints: real,
    averageSprints: Option<real>,
    isDeviationFlagged: bool,
    assignedResourceIds: Option<string>,
    assignedResources: Option<CiMap>)

  datatype Estimate = Estimate(
    sprintLengthDays: int,
    contingencyPercent: real,
    functionalItems: seq<FunctionalLineItem>,
    nonFunctionalItems: seq<NonFunctionalItem>,
    resourceRates: seq<ResourceRate>,
    roleMappings: seq<RoleMapping>)

  /** `Estimate.SprintLengthDays`' default: two working weeks. */
  const DefaultSprintLengthDays: int := 10
}
