/**
 A worked run: pattern "starts with Org-", three tags, one asset whose agent is
 in group Org-East, one asset whose uuid has no agent, and one asset that is
 already organised.
 */
module Scenario {

  import opened Wrappers
  import opened Inventory
  import opened TagIndex
  import opened UuidFormat
  import opened Reconcile

  function OrgPrefix(s: string): (b: bool)
  {
    |s| >= 4 && s[..4] == "Org-"
  }

  function Listing(u: string): (agents: seq<Agent>)
  {
    if u == "12345678-90ab-cdef-1234-567890abcdef" then [Agent([Group("Org-East")])] else []
  }

  function ScenarioTags(): (tags: seq<Tag>)
  {
    [Tag("Org-East", "T1"), Tag("Org-West", "T2"), Tag("Other", "T3")]
  }

  /** The tag "Other" does not match, so only the two Org- tags are indexed. */
  lemma ScenarioIndex()
    ensures IndexOf(ScenarioTags(), OrgPrefix) == SampleIndex()
  {
    var tags := ScenarioTags();
    assert "Other"[..4][1] == 't';
    assert OrgPrefix("Org-East") && OrgPrefix("Org-West") && !OrgPrefix("Other");
    assert tags[..1][..0] == [];
    assert IndexOf(tags[..1], OrgPrefix) == map["Org-East" := "T1"];
    assert tags[..2][..1] == tags[..1];
    assert IndexOf(tags[..2], OrgPrefix) == map["Org-East" := "T1", "Org-West" := "T2"];
    assert tags[..3][..2] == tags[..2] && tags[..3] == tags;
  }

  /** The sample raw uuid canonicalises to the uuid the agent listing knows. */
  lemma ScenarioCanonical(raw: string)
    requires raw == "1234567890abcdef1234567890abcdef"
    ensures Canonical(raw) == "12345678-90ab-cdef-1234-567890abcdef"
  {
    assert raw == "12345678" + "90ab" + "cdef" + "1234" + "567890abcdef";
    assert "12345678" + "-" + "90ab" + "-" + "cdef" + "-" + "1234" + "-" + "567890abcdef"
        == "12345678-90ab-cdef-1234-567890abcdef";
    CanonicalOfGroups("12345678", "90ab", "cdef", "1234", "567890abcdef");
  }

  lemma OtherUuidHasNoAgent()
    ensures Listing(Canonical("ffffffffffffffffffffffffffffffff")) == []
  {
    var raw := "ffffffffffffffffffffffffffffffff";
    CanonicalLayout(raw);
    assert Canonical(raw)[..8] == raw[..8];
    assert Canonical(raw)[0] == raw[0] == 'f';
    assert "12345678-90ab-cdef-1234-567890abcdef"[0] == '1';
  }

  function SampleIndex(): (index: map<string, string>)
  {
    map["Org-East" := "T1", "Org-West" := "T2"]
  }

  lemma FirstAssetAssigned(index: map<string, string>, a1: Asset)
    requires index == SampleIndex()
    requires a1 == Asset("A1", [AssetTag("Other")], ["1234567890abcdef1234567890abcdef"])
    ensures AssetOutcome(index, a1, OrgPrefix, Listing) == Outcome([Assignment("A1", "T1")], None)
  {
    ScenarioCanonical(a1.tenableUuid[0]);
    assert "Other"[..4][1] == 't';
    assert !AnyTagMatches(a1.tags, OrgPrefix);
    var one := [Agent([Group("Org-East")])];
    assert one[..0] == [];
    assert AgentsOutcome(index, "A1", one) == Outcome([Assignment("A1", "T1")], None);
  }

  lemma SecondAssetHasNoAgent(index: map<string, string>, a2: Asset)
    requires a2 == Asset("A2", [], ["ffffffffffffffffffffffffffffffff"])
    ensures AssetOutcome(index, a2, OrgPrefix, Listing) == Outcome([], None)
  {
    OtherUuidHasNoAgent();
  }

  lemma ThirdAssetOrganised(index: map<string, string>, a3: Asset)
    requires a3 == Asset("A3", [AssetTag("Org-West")], [])
    ensures AssetOutcome(index, a3, OrgPrefix, Listing) == Outcome([], None)
  {
  }

  /** A run over three assets, of which only the first emits and none faults. */
  lemma ThreeAssetRun(index: map<string, string>, a1: Asset, a2: Asset, a3: Asset, emitted: seq<Assignment>)
    requires AssetOutcome(index, a1, OrgPrefix, Listing) == Outcome(emitted, None)
    requires AssetOutcome(index, a2, OrgPrefix, Listing) == Outcome([], None)
    requires AssetOutcome(index, a3, OrgPrefix, Listing) == Outcome([], None)
    ensures RunOutcome(index, [a1, a2, a3], OrgPrefix, Listing) == Outcome(emitted, None)
  {
    var assets := [a1, a2, a3];
    assert assets[..1][..0] == [];
    assert assets[..2][..1] == [a1];
    assert assets[..3][..2] == [a1, a2] && assets[..3] == assets;
    assert RunOutcome(index, [a1], OrgPrefix, Listing) == Outcome([] + emitted, None);
    assert RunOutcome(index, [a1, a2], OrgPrefix, Listing) == Outcome(emitted + [], None);
    assert [] + emitted == emitted + [] == emitted;
  }

  /** The worked run, over listings given as parameters so that the solver does not unfold it eagerly. */
  lemma ScenarioRun(tags: seq<Tag>, a1: Asset, a2: Asset, a3: Asset)
    requires tags == ScenarioTags()
    requires a1 == Asset("A1", [AssetTag("Other")], ["1234567890abcdef1234567890abcdef"])
    requires a2 == Asset("A2", [], ["ffffffffffffffffffffffffffffffff"])
    requires a3 == Asset("A3", [AssetTag("Org-West")], [])
    ensures Pipeline(tags, [a1, a2, a3], OrgPrefix, Listing) == Outcome([Assignment("A1", "T1")], None)
  {
    ScenarioIndex();
    var index := IndexOf(tags, OrgPrefix);
    FirstAssetAssigned(index, a1);
    SecondAssetHasNoAgent(index, a2);
    ThirdAssetOrganised(index, a3);
    ThreeAssetRun(index, a1, a2, a3, [Assignment("A1", "T1")]);
  }

  /** Only the Org-East tag is assigned, to A1; the asset without agents and the organised asset emit nothing. */
  lemma ScenarioOrgEast()
    ensures var a1 := Asset("A1", [AssetTag("Other")], ["1234567890abcdef1234567890abcdef"]);
            var a2 := Asset("A2", [], ["ffffffffffffffffffffffffffffffff"]);
            var a3 := Asset("A3", [AssetTag("Org-West")], []);
            Pipeline(ScenarioTags(), [a1, a2, a3], OrgPrefix, Listing) == Outcome([Assignment("A1", "T1")], None)
  {
    ScenarioRun(ScenarioTags(),
                Asset("A1", [AssetTag("Other")], ["1234567890abcdef1234567890abcdef"]),
                Asset("A2", [], ["ffffffffffffffffffffffffffffffff"]),
                Asset("A3", [AssetTag("Org-West")], []));
  }

}
