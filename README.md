# Tagging Tenable.io agents by their group — a Dafny model

`TIO_TagAgentsUsingGroups.py` reconciles asset tags with agent groups on
Tenable.io. It lists all tags and builds an index from tag value to tag uuid,
keeping only the values that match the organisation pattern. It then walks the
workbench assets. An asset already carrying a matching tag value is skipped.
For any other asset, the script takes the first raw `tenable_uuid`, reformats it
into the hyphenated 8-4-4-4-12 layout of section 3 of RFC 4122 and lists the
agents with that uuid. For each such agent it looks up the first group's name in
the index. When the lookup gives a non-empty tag uuid, the script prints the
asset id and the tag uuid. The tag assignment that would follow is commented out
in the source.

The model has six modules, one per file:

- `Wrappers` (`wrappers.dfy`) holds `Option`.
- `Inventory` (`inventory.dfy`) holds the records the script reads: `Tag`,
  `AssetTag`, `Asset`, `Group` and `Agent`. It also holds the run's result,
  `Outcome`: the emitted `Assignment` pairs in order, and an optional `Fault`.
- `TagIndex` (`tag_index.dfy`) holds `generate_dict`. `BuildIndex` is the loop
  that updates the map in place. It is proved equal to `IndexOf`, a function
  over the listing prefix, and the lemmas state what the index contains.
- `UuidFormat` (`uuid_format.dfy`) holds Python's clamping slice, `str.join`
  and `str.split`, plus `Canonical`, the slice-and-join reformatting, with its
  layout and round-trip laws.
- `Reconcile` (`reconcile.dfy`) holds the main block. `Run` and `ProcessAsset`
  are the nested loops. They are proved equal to `Pipeline`, `RunOutcome`,
  `AssetOutcome` and `AgentsOutcome`, and the lemmas state filtering, lookup
  and emission.
- `Scenario` (`scenario.dfy`) is a worked run with concrete tags, assets and an
  agent listing.

The organisation regex is a placeholder in the source. The model therefore
takes it as a parameter `matches: string -> bool`, and every property holds for
every pattern. The agent listing is a parameter
`agentsFor: string -> seq<Agent>`, and the tag and asset listings are input
sequences.

Two Python index errors stop the script. The model keeps both as a `Fault` that
ends the run, and it keeps whatever was printed before:

- an asset whose `tenable_uuid` list is empty;
- an agent whose `groups` list is empty.

Python's truthiness test on `tag_dict.get(...)` is modelled too: a missing key
and an empty uuid both mean no emission.

## Model

| member | source | states |
|---|---|---|
| `TagIndex.BuildIndex` | TIO_TagAgentsUsingGroups.py:8-13 | the in-place loop builds exactly `IndexOf(tags)`; every key matches the pattern, and every matching tag's value is a key |
| `TagIndex.IndexKeys` | TIO_TagAgentsUsingGroups.py:10-12 | a string is a key of the index if and only if it matches the pattern and some listed tag has it as its value |
| `TagIndex.IndexLastWins` | TIO_TagAgentsUsingGroups.py:12 | the uuid stored under a key is that of the last tag in listing order with that value |
| `TagIndex.IndexValues` | TIO_TagAgentsUsingGroups.py:10-12 | every uuid in the index belongs to a listed tag whose value matches the pattern |
| `UuidFormat.CanonicalLayout` | TIO_TagAgentsUsingGroups.py:28 | for a 32-character raw uuid the result has 36 characters: the raw characters in order, with hyphens at 8, 13, 18 and 23 |
| `UuidFormat.CanonicalHyphens` | TIO_TagAgentsUsingGroups.py:28 | for a 32-character raw uuid without hyphens, a position holds a hyphen if and only if it is 8, 13, 18 or 23 |
| `UuidFormat.CanonicalSplit` | TIO_TagAgentsUsingGroups.py:28 | splitting the result on hyphens gives back the five slices; for a raw uuid of at least 32 characters they have lengths 8, 4, 4, 4 and 12 |
| `UuidFormat.SplitJoin` | TIO_TagAgentsUsingGroups.py:28 | splitting on the separator undoes `join` when no part contains the separator |
| `UuidFormat.CanonicalRoundTrip` | TIO_TagAgentsUsingGroups.py:28 | deleting the hyphens gives back the raw uuid cut to 32 characters, and exactly the raw uuid when it has 32 |
| `UuidFormat.CanonicalTruncates` | TIO_TagAgentsUsingGroups.py:28 | characters after the 32nd do not affect the canonical form |
| `UuidFormat.CanonicalOfGroups` | TIO_TagAgentsUsingGroups.py:28 | a raw uuid made of groups of 8, 4, 4, 4 and 12 characters becomes those groups joined by hyphens |
| `Reconcile.AnyTagMatches` | TIO_TagAgentsUsingGroups.py:26 | the already-organised test holds if and only if some current tag value of the asset matches the pattern |
| `Reconcile.ProcessAsset` | TIO_TagAgentsUsingGroups.py:26-36 | one pass of the asset loop, including its agent loop, gives exactly `AssetOutcome` |
| `Reconcile.Run` | TIO_TagAgentsUsingGroups.py:23-36 | the main block's output and fault are exactly `Pipeline(tags, assets)` |
| `Reconcile.AgentsFaultSticks` | TIO_TagAgentsUsingGroups.py:30-31 | once an agent without a group has raised, later agents change nothing |
| `Reconcile.RunFaultSticks` | TIO_TagAgentsUsingGroups.py:25-27 | once an asset has raised, later assets change nothing |
| `Reconcile.AgentsFault` | TIO_TagAgentsUsingGroups.py:31 | the agent loop faults if and only if some listed agent has no group, and the fault names the asset |
| `Reconcile.EmittedWasYielded` | TIO_TagAgentsUsingGroups.py:30-36 | every emitted pair comes from an agent the loop reached whose first group maps to a non-empty uuid |
| `Reconcile.YieldedIsEmitted` | TIO_TagAgentsUsingGroups.py:30-36 | every reached agent whose first group maps to a non-empty uuid emits its pair |
| `Reconcile.AgentsEmission` | TIO_TagAgentsUsingGroups.py:30-36 | a pair is emitted if and only if a reached agent's first group is a key with a non-empty uuid; zero agents emit nothing |
| `Reconcile.ScanAgentsSnoc` | TIO_TagAgentsUsingGroups.py:30-36 | extending the agent list by one agent adds that agent's yield only when the scan reaches it |
| `Reconcile.AgentsOutcomeIsScan` | TIO_TagAgentsUsingGroups.py:30-36 | the agent loop emits exactly the front-to-back scan of the agents: the same pairs in the same order |
| `Reconcile.OrganisedAssetSilent` | TIO_TagAgentsUsingGroups.py:26 | an asset with a tag value that matches the pattern contributes nothing and does not fault |
| `Reconcile.OnlyFirstDeviceUuidMatters` | TIO_TagAgentsUsingGroups.py:27-28 | assets that agree on whether they have a raw uuid, and on the first 32 characters of the first one (all of it when shorter), have the same outcome; the other raw uuids are ignored |
| `Reconcile.OnlyFirstGroupMatters` | TIO_TagAgentsUsingGroups.py:31 | agent lists that agree on each agent's first group, and on which agents have no group, have the same outcome |
| `Reconcile.OnlyCandidatesMatter` | TIO_TagAgentsUsingGroups.py:25-26 | the run over all assets equals the run over only the assets without an organisation tag |
| `Reconcile.OrganisedAssetsEmitNothing` | TIO_TagAgentsUsingGroups.py:25-26 | when every asset is already organised, a run emits nothing and does not fault, so re-runs leave such assets alone |
| `Reconcile.RunProvenance` | TIO_TagAgentsUsingGroups.py:25-36 | every emitted pair has a non-empty uuid stored in the index. It comes from a listed asset that the run reached without a fault and that has no organisation tag. The pair joins that asset's id with the uuid for the first group of one of that asset's own agents |
| `Reconcile.AssetYieldIsEmitted` | TIO_TagAgentsUsingGroups.py:26-36 | a pair that an untagged asset's reached agent yields is among that asset's emissions |
| `Reconcile.YieldedByAssetIsEmitted` | TIO_TagAgentsUsingGroups.py:25-36 | a pair that an asset yields is emitted by the run whenever the run reaches that asset without a fault |
| `Reconcile.RunEmission` | TIO_TagAgentsUsingGroups.py:25-36 | a pair is emitted by the run if and only if some asset the run reaches without a fault yields it |
| `Reconcile.PipelineTagsMatch` | TIO_TagAgentsUsingGroups.py:8-36 | every emitted tag uuid belongs to a listed tag whose value matches the pattern |
| `Scenario.ScenarioIndex` | TIO_TagAgentsUsingGroups.py:10-12 | the tags Org-East/T1, Org-West/T2 and Other/T3 under the pattern "starts with Org-" index only the two Org- tags |
| `Scenario.ScenarioCanonical` | TIO_TagAgentsUsingGroups.py:28 | the raw uuid `1234567890abcdef1234567890abcdef` becomes `12345678-90ab-cdef-1234-567890abcdef` |
| `Scenario.ScenarioOrgEast` | TIO_TagAgentsUsingGroups.py:23-36 | in the worked run only (A1, T1) is emitted: no agent has A2's uuid, and A3 is already organised |

## Left out

- Client construction and credentials from environment variables (line 17): I/O. Logging configuration (line 19): a side effect only.
- The regex engine behind `re.compile` (line 21). The pattern is a placeholder, so the model takes it as a `string -> bool` parameter.
- The remote calls `tags.list`, `workbenches.assets` and `agents.list` (lines 10, 25 and 30) are network I/O. They become input sequences and the `agentsFor` parameter. The asset query triple is the platform's own filter; it is opaque, so the model takes the filtered list as given.
- The two `print` calls per match (lines 35-36) become one `Assignment` pair appended to the output. The commented-out `tags.assign` (line 37) is not executed by the script, so it is not modelled as a call.
- Exceptions other than the two index errors are not modelled. These include a missing dictionary key in a record, a non-string field, and a failure raised by the client library. Records are typed datatypes that always have their fields.
- Report files, "error" outcome records and agentless-asset handling do not exist in this revision of the script. The model follows the code, which only prints. An asset with an empty `tenable_uuid` list therefore ends the run with `NoDeviceUuid`; it does not produce a failure record.
- Agent names, hostnames and tag keys are never read by the script, so the records leave them out.
