/**
 The records the reconciliation script reads from the vulnerability-management
 platform, and what one run of it produces. Only the fields the script touches
 are modelled.
 */
module Inventory {

  import opened Wrappers

  /** An entry of the tag listing: the tag's value (its display name) and its uuid. */
  datatype Tag = Tag(value: string, uuid: string)

  /** One of the tags an asset currently carries, as the workbench reports it. */
  datatype AssetTag = AssetTag(tagValue: string)

  /** A workbench asset: its id, its current tags and its raw device uuids. */
  datatype Asset = Asset(id: string, tags: seq<AssetTag>, tenableUuid: seq<string>)

  /** An agent group; only its name is read. */
  datatype Group = Group(name: string)

  /** An agent record; only its ordered group memberships are read. */
  datatype Agent = Agent(groups: seq<Group>)

  /** One (asset id, tag uuid) pair that the run prints and would assign. */
  datatype Assignment = Assignment(assetId: string, tagUuid: string)

  /**
   The uncaught index errors that end a run early: an asset with no raw device
   uuid, or an agent with no group.
   */
  datatype Fault = NoDeviceUuid(assetId: string) | NoGroups(assetId: string)

  /** What a run (or part of one) emitted, in order, and whether it stopped on a fault. */
  datatype Outcome = Outcome(emitted: seq<Assignment>, fault: Option<Fault>)

  /** The organisation pattern's `match`: it decides which tag values mark an organised asset. */
  type Pattern = string -> bool

  /** The agent listing filtered by `uuid eq <canonical uuid>`. */
  type AgentListing = string -> seq<Agent>

}
