/**
 The main run: for every listed asset that carries no organisation tag, the
 first raw device uuid is canonicalised, the agents listed for it are scanned
 in order, and each agent's first group name is looked up in the tag index; a
 non-empty uuid found there yields an (asset id, tag uuid) assignment.
 */
module Reconcile {

  import opened Wrappers
  import opened Inventory
  import opened TagIndex
  import opened UuidFormat

  /** The already-organised test: does any current tag value of the asset match the pattern? */
  function AnyTagMatches(tags: seq<AssetTag>, matches: Pattern): (b: bool)
    ensures b <==> exists i :: 0 <= i < |tags| && matches(tags[i].tagValue)
  {
    if |tags| == 0 then false
    else matches(tags[0].tagValue) || AnyTagMatches(tags[1..], matches)
  }

  /** Python's `dict.get`: the stored value, or `None` for a missing key. */
  function Get(index: map<string, string>, key: string): (r: Option<string>)
  {
    if key in index then Some(index[key]) else None
  }

  /** Python's truthiness of a `dict.get` result: present and not the empty string. */
  predicate Truthy(r: Option<string>)
  {
    r.Some? && r.value != ""
  }

  /** One pass of the agent loop: index error on an agent without groups, else lookup and emission. */
  function AgentStep(index: map<string, string>, assetId: string, agent: Agent, emitted: seq<Assignment>): (out: Outcome)
  {
    if |agent.groups| == 0 then Outcome(emitted, Some(NoGroups(assetId)))
    else
      var tagUuid := Get(index, agent.groups[0].name);
      if Truthy(tagUuid) then Outcome(emitted + [Assignment(assetId, tagUuid.value)], None)
      else Outcome(emitted, None)
  }

  /** The agent loop of one asset after it has gone through `agents`; a fault ends it. */
  function AgentsOutcome(index: map<string, string>, assetId: string, agents: seq<Agent>): (out: Outcome)
  {
    if |agents| == 0 then Outcome([], None)
    else
      var before := AgentsOutcome(index, assetId, agents[..|agents| - 1]);
      if before.fault.Some? then before
      else AgentStep(index, assetId, agents[|agents| - 1], before.emitted)
  }

  /** What one asset contributes: nothing if organised, else the agent loop over its canonical uuid. */
  function AssetOutcome(index: map<string, string>, asset: Asset, matches: Pattern, agentsFor: AgentListing): (out: Outcome)
  {
    if AnyTagMatches(asset.tags, matches) then Outcome([], None)
    else if |asset.tenableUuid| == 0 then Outcome([], Some(NoDeviceUuid(asset.id)))
    else AgentsOutcome(index, asset.id, agentsFor(Canonical(asset.tenableUuid[0])))
  }

  /** The asset loop after it has gone through `assets`; a fault ends the whole run. */
  function RunOutcome(index: map<string, string>, assets: seq<Asset>, matches: Pattern, agentsFor: AgentListing): (out: Outcome)
  {
    if |assets| == 0 then Outcome([], None)
    else
      var before := RunOutcome(index, assets[..|assets| - 1], matches, agentsFor);
      if before.fault.Some? then before
      else
        var here := AssetOutcome(index, assets[|assets| - 1], matches, agentsFor);
        Outcome(before.emitted + here.emitted, here.fault)
  }

  /** The whole script: build the index from the tag listing, then run over the assets. */
  function Pipeline(tags: seq<Tag>, assets: seq<Asset>, matches: Pattern, agentsFor: AgentListing): (out: Outcome)
  {
    RunOutcome(IndexOf(tags, matches), assets, matches, agentsFor)
  }

  /** The body of the asset loop, with its inner loop over the listed agents. */
  method ProcessAsset(index: map<string, string>, asset: Asset, matches: Pattern, agentsFor: AgentListing)
    returns (out: Outcome)
    ensures out == AssetOutcome(index, asset, matches, agentsFor)
  {
    if AnyTagMatches(asset.tags, matches) {
      return Outcome([], None);
    }
    if |asset.tenableUuid| == 0 {
      return Outcome([], Some(NoDeviceUuid(asset.id)));
    }
    var uuid := asset.tenableUuid[0];
    var formatted := Canonical(uuid);
    var agents := agentsFor(formatted);
    var emitted: seq<Assignment> := [];
    var i := 0;
    while i < |agents|
      invariant 0 <= i <= |agents|
      invariant AgentsOutcome(index, asset.id, agents[..i]) == Outcome(emitted, None)
    {
      assert agents[..i + 1][..i] == agents[..i];
      if |agents[i].groups| == 0 {
        AgentsFaultSticks(index, asset.id, agents, i + 1);
        return Outcome(emitted, Some(NoGroups(asset.id)));
      }
      var groupName := agents[i].groups[0].name;
      var tagUuid := Get(index, groupName);
      if Truthy(tagUuid) {
        emitted := emitted + [Assignment(asset.id, tagUuid.value)];
      }
      i := i + 1;
    }
    assert agents[..i] == agents;
    return Outcome(emitted, None);
  }

  /** The script's main block: index, then the asset loop; a fault stops the run where it is. */
  method Run(tags: seq<Tag>, assets: seq<Asset>, matches: Pattern, agentsFor: AgentListing)
    returns (out: Outcome)
    ensures out == Pipeline(tags, assets, matches, agentsFor)
  {
    var index := BuildIndex(tags, matches);
    var emitted: seq<Assignment> := [];
    for i := 0 to |assets|
      invariant RunOutcome(index, assets[..i], matches, agentsFor) == Outcome(emitted, None)
    {
      assert assets[..i + 1][..i] == assets[..i];
      var here := ProcessAsset(index, assets[i], matches, agentsFor);
      emitted := emitted + here.emitted;
      if here.fault.Some? {
        RunFaultSticks(index, assets, matches, agentsFor, i + 1);
        return Outcome(emitted, here.fault);
      }
    }
    assert assets[..|assets|] == assets;
    return Outcome(emitted, None);
  }

  /** Once the agent loop has faulted, later agents change nothing. */
  lemma {:induction false} AgentsFaultSticks(index: map<string, string>, assetId: string, agents: seq<Agent>, k: nat)
    requires k <= |agents|
    requires AgentsOutcome(index, assetId, agents[..k]).fault.Some?
    ensures AgentsOutcome(index, assetId, agents) == AgentsOutcome(index, assetId, agents[..k])
    decreases |agents|
  {
    if k < |agents| {
      var init := agents[..|agents| - 1];
      assert init[..k] == agents[..k];
      AgentsFaultSticks(index, assetId, init, k);
    } else {
      assert agents[..k] == agents;
    }
  }

  /** Once the asset loop has faulted, later assets change nothing. */
  lemma {:induction false} RunFaultSticks(index: map<string, string>, assets: seq<Asset>, matches: Pattern, agentsFor: AgentListing, k: nat)
    requires k <= |assets|
    requires RunOutcome(index, assets[..k], matches, agentsFor).fault.Some?
    ensures RunOutcome(index, assets, matches, agentsFor) == RunOutcome(index, assets[..k], matches, agentsFor)
    decreases |assets|
  {
    if k < |assets| {
      var init := assets[..|assets| - 1];
      assert init[..k] == assets[..k];
      RunFaultSticks(index, init, matches, agentsFor, k);
    } else {
      assert assets[..k] == assets;
    }
  }

  /** Every agent before position `i` has a group, so the loop reaches agent `i`. */
  ghost predicate Reached(agents: seq<Agent>, i: int)
  {
    forall j :: 0 <= j < i && j < |agents| ==> |agents[j].groups| > 0
  }

  /**
   Agent `agent` yields `x`: its first group name is a key of the index with a
   non-empty uuid, and `x` pairs the asset with that uuid.
   */
  ghost predicate Yields(index: map<string, string>, assetId: string, agent: Agent, x: Assignment)
  {
    && |agent.groups| > 0
    && agent.groups[0].name in index
    && index[agent.groups[0].name] != ""
    && x == Assignment(assetId, index[agent.groups[0].name])
  }

  /** The agent loop faults exactly when some agent has no group, and then with that asset's id. */
  lemma {:induction false} AgentsFault(index: map<string, string>, assetId: string, agents: seq<Agent>)
    ensures AgentsOutcome(index, assetId, agents).fault.Some? <==> !Reached(agents, |agents|)
    ensures AgentsOutcome(index, assetId, agents).fault.Some? ==>
              AgentsOutcome(index, assetId, agents).fault == Some(NoGroups(assetId))
  {
    if |agents| > 0 {
      var init := agents[..|agents| - 1];
      AgentsFault(index, assetId, init);
      if !Reached(init, |init|) {
        var j :| 0 <= j < |init| && |init[j].groups| == 0;
        assert agents[j] == init[j];
      }
      if !Reached(agents, |agents|) {
        var j :| 0 <= j < |agents| && |agents[j].groups| == 0;
        if j < |init| {
          assert agents[j] == init[j];
        }
      }
    }
  }

  /** Whatever the agent loop emits was yielded by an agent it reached. */
  lemma {:induction false} EmittedWasYielded(index: map<string, string>, assetId: string, agents: seq<Agent>, x: Assignment)
    requires x in AgentsOutcome(index, assetId, agents).emitted
    ensures exists i :: 0 <= i < |agents| && Reached(agents, i) && Yields(index, assetId, agents[i], x)
  {
    var init := agents[..|agents| - 1];
    var before := AgentsOutcome(index, assetId, init);
    if x in before.emitted {
      EmittedWasYielded(index, assetId, init, x);
      var i :| 0 <= i < |init| && Reached(init, i) && Yields(index, assetId, init[i], x);
      assert agents[i] == init[i];
      assert Reached(agents, i) by {
        forall j | 0 <= j < i
          ensures |agents[j].groups| > 0
        {
          assert agents[j] == init[j];
        }
      }
      assert 0 <= i < |agents| && Reached(agents, i) && Yields(index, assetId, agents[i], x);
    } else {
      var last := agents[|init|];
      assert before.fault.None?;
      assert AgentsOutcome(index, assetId, agents) == AgentStep(index, assetId, last, before.emitted);
      assert |last.groups| > 0;
      AgentsFault(index, assetId, init);
      assert Reached(agents, |init|) by {
        forall j | 0 <= j < |init|
          ensures |agents[j].groups| > 0
        {
          assert agents[j] == init[j];
        }
      }
      assert 0 <= |init| < |agents| && Reached(agents, |init|) && Yields(index, assetId, agents[|init|], x);
    }
  }

  /** Whatever an agent the loop reaches yields is emitted. */
  lemma {:induction false} YieldedIsEmitted(index: map<string, string>, assetId: string, agents: seq<Agent>, x: Assignment, i: nat)
    requires i < |agents| && Reached(agents, i) && Yields(index, assetId, agents[i], x)
    ensures x in AgentsOutcome(index, assetId, agents).emitted
  {
    var init := agents[..|agents| - 1];
    if i < |init| {
      assert agents[i] == init[i];
      YieldedIsEmitted(index, assetId, init, x, i);
    } else {
      AgentsFault(index, assetId, init);
    }
  }

  /**
   An assignment is emitted for an asset exactly when an agent the loop reaches
   yields it; zero agents, or none whose group has a non-empty tag uuid, emit nothing.
   */
  lemma AgentsEmission(index: map<string, string>, assetId: string, agents: seq<Agent>, x: Assignment)
    ensures x in AgentsOutcome(index, assetId, agents).emitted <==>
            exists i :: 0 <= i < |agents| && Reached(agents, i) && Yields(index, assetId, agents[i], x)
  {
    if x in AgentsOutcome(index, assetId, agents).emitted {
      EmittedWasYielded(index, assetId, agents, x);
    }
    if exists i :: 0 <= i < |agents| && Reached(agents, i) && Yields(index, assetId, agents[i], x) {
      var i :| 0 <= i < |agents| && Reached(agents, i) && Yields(index, assetId, agents[i], x);
      YieldedIsEmitted(index, assetId, agents, x, i);
    }
  }

  /** What one grouped agent contributes when the loop reaches it. */
  function AgentYield(index: map<string, string>, assetId: string, agent: Agent): (yielded: seq<Assignment>)
    requires |agent.groups| > 0
  {
    var name := agent.groups[0].name;
    if name in index && index[name] != "" then [Assignment(assetId, index[name])] else []
  }

  /**
   Reference reading of the agent loop, front to back: each agent in turn
   contributes its yield, and the first agent without a group ends the scan.
   */
  function ScanAgents(index: map<string, string>, assetId: string, agents: seq<Agent>): (emitted: seq<Assignment>)
  {
    if |agents| == 0 || |agents[0].groups| == 0 then []
    else AgentYield(index, assetId, agents[0]) + ScanAgents(index, assetId, agents[1..])
  }

  lemma {:induction false} ScanAgentsSnoc(index: map<string, string>, assetId: string, agents: seq<Agent>)
    requires |agents| > 0
    ensures var init := agents[..|agents| - 1];
            var last := agents[|agents| - 1];
            ScanAgents(index, assetId, agents) ==
              if Reached(agents, |init|) && |last.groups| > 0
              then ScanAgents(index, assetId, init) + AgentYield(index, assetId, last)
              else ScanAgents(index, assetId, init)
  {
    var init := agents[..|agents| - 1];
    if |agents| > 1 && |agents[0].groups| > 0 {
      var tail := agents[1..];
      ScanAgentsSnoc(index, assetId, tail);
      assert tail[..|tail| - 1] == init[1..];
      assert Reached(agents, |init|) <==> Reached(tail, |tail| - 1) by {
        if Reached(tail, |tail| - 1) {
          forall j | 0 <= j < |init|
            ensures |agents[j].groups| > 0
          {
            if j > 0 {
              assert agents[j] == tail[j - 1];
            }
          }
        }
        if Reached(agents, |init|) {
          forall j | 0 <= j < |tail| - 1
            ensures |tail[j].groups| > 0
          {
            assert tail[j] == agents[j + 1];
          }
        }
      }
    } else if |agents| == 1 {
      assert init == [];
    } else {
      assert !Reached(agents, |init|);
    }
  }

  /** The agent loop emits exactly the front-to-back scan: same assignments, same order. */
  lemma {:induction false} AgentsOutcomeIsScan(index: map<string, string>, assetId: string, agents: seq<Agent>)
    ensures AgentsOutcome(index, assetId, agents).emitted == ScanAgents(index, assetId, agents)
  {
    if |agents| > 0 {
      var init := agents[..|agents| - 1];
      var last := agents[|agents| - 1];
      var before := AgentsOutcome(index, assetId, init);
      AgentsOutcomeIsScan(index, assetId, init);
      AgentsFault(index, assetId, init);
      ScanAgentsSnoc(index, assetId, agents);
      if before.fault.Some? {
        var j :| 0 <= j < |init| && |init[j].groups| == 0;
        assert agents[j] == init[j];
        assert !Reached(agents, |init|);
      } else {
        assert Reached(agents, |init|) by {
          forall j | 0 <= j < |init|
            ensures |agents[j].groups| > 0
          {
            assert agents[j] == init[j];
          }
        }
        assert AgentsOutcome(index, assetId, agents) == AgentStep(index, assetId, last, before.emitted);
      }
    }
  }

  /** An organised asset contributes nothing. */
  lemma OrganisedAssetSilent(index: map<string, string>, asset: Asset, matches: Pattern, agentsFor: AgentListing)
    requires exists i :: 0 <= i < |asset.tags| && matches(asset.tags[i].tagValue)
    ensures AssetOutcome(index, asset, matches, agentsFor) == Outcome([], None)
  {
  }

  /**
   Only the first raw device uuid of an asset, and only its first 32 characters
   (or all of it when shorter), are read.
   */
  lemma OnlyFirstDeviceUuidMatters(index: map<string, string>, asset: Asset, asset': Asset, matches: Pattern, agentsFor: AgentListing)
    requires asset.id == asset'.id && asset.tags == asset'.tags
    requires |asset.tenableUuid| == 0 <==> |asset'.tenableUuid| == 0
    requires |asset.tenableUuid| > 0 ==>
               Slice(asset.tenableUuid[0], 0, 32) == Slice(asset'.tenableUuid[0], 0, 32)
    ensures AssetOutcome(index, asset, matches, agentsFor) == AssetOutcome(index, asset', matches, agentsFor)
  {
    if |asset.tenableUuid| > 0 {
      var u, u' := asset.tenableUuid[0], asset'.tenableUuid[0];
      if |u| >= 32 {
        assert |u'| >= 32 && u[..32] == u'[..32];
        CanonicalTruncates(u);
        CanonicalTruncates(u');
      } else {
        assert u == Slice(u, 0, 32);
        assert u == u';
      }
    }
  }

  /** Only the first group of each agent is read: agents that agree on it give the same outcome. */
  lemma {:induction false} OnlyFirstGroupMatters(index: map<string, string>, assetId: string, agents: seq<Agent>, agents': seq<Agent>)
    requires |agents| == |agents'|
    requires forall i :: 0 <= i < |agents| ==>
               (|agents[i].groups| == 0 <==> |agents'[i].groups| == 0)
    requires forall i :: 0 <= i < |agents| && |agents[i].groups| > 0 ==>
               agents[i].groups[0] == agents'[i].groups[0]
    ensures AgentsOutcome(index, assetId, agents) == AgentsOutcome(index, assetId, agents')
  {
    if |agents| > 0 {
      var n := |agents| - 1;
      OnlyFirstGroupMatters(index, assetId, agents[..n], agents'[..n]);
    }
  }

  /** The assets that still need organising, in listing order. */
  function Candidates(assets: seq<Asset>, matches: Pattern): (candidates: seq<Asset>)
  {
    if |assets| == 0 then []
    else
      var last := assets[|assets| - 1];
      Candidates(assets[..|assets| - 1], matches) + (if AnyTagMatches(last.tags, matches) then [] else [last])
  }

  /**
   Organised assets are skipped entirely: the run over all assets equals the run
   over the candidates alone, so re-running on organised assets emits nothing new.
   */
  lemma {:induction false} OnlyCandidatesMatter(index: map<string, string>, assets: seq<Asset>, matches: Pattern, agentsFor: AgentListing)
    ensures RunOutcome(index, assets, matches, agentsFor) == RunOutcome(index, Candidates(assets, matches), matches, agentsFor)
  {
    if |assets| > 0 {
      var init := assets[..|assets| - 1];
      var last := assets[|assets| - 1];
      var cands := Candidates(init, matches);
      OnlyCandidatesMatter(index, init, matches, agentsFor);
      var before := RunOutcome(index, init, matches, agentsFor);
      if AnyTagMatches(last.tags, matches) {
        assert Candidates(assets, matches) == cands;
        assert before.fault.None? ==> before.emitted + [] == before.emitted;
      } else {
        assert Candidates(assets, matches) == cands + [last];
        assert (cands + [last])[..|cands|] == cands;
      }
    }
  }

  /** A run over assets that are all organised emits nothing and does not fault. */
  lemma {:induction false} OrganisedAssetsEmitNothing(index: map<string, string>, assets: seq<Asset>, matches: Pattern, agentsFor: AgentListing)
    requires forall i :: 0 <= i < |assets| ==> AnyTagMatches(assets[i].tags, matches)
    ensures RunOutcome(index, assets, matches, agentsFor) == Outcome([], None)
  {
    if |assets| > 0 {
      OrganisedAssetsEmitNothing(index, assets[..|assets| - 1], matches, agentsFor);
    }
  }

  /**
   Asset `asset` yields `x`: it carries no organisation tag, it has a raw device
   uuid, and an agent listed for the canonical form of the first one is reached
   by the agent loop and yields `x`.
   */
  ghost predicate AssetYields(index: map<string, string>, asset: Asset, matches: Pattern, agentsFor: AgentListing, x: Assignment)
  {
    && !AnyTagMatches(asset.tags, matches)
    && |asset.tenableUuid| > 0
    && var agents := agentsFor(Canonical(asset.tenableUuid[0]));
       exists j :: 0 <= j < |agents| && Reached(agents, j) && Yields(index, asset.id, agents[j], x)
  }

  /**
   Every emitted assignment was yielded by a listed asset that the run reached
   without a fault, pairing that asset's id with a non-empty uuid stored in the
   index under the first group name of one of that asset's own agents.
   */
  lemma {:induction false} RunProvenance(index: map<string, string>, assets: seq<Asset>, matches: Pattern, agentsFor: AgentListing, x: Assignment)
    requires x in RunOutcome(index, assets, matches, agentsFor).emitted
    ensures x.tagUuid != "" && x.tagUuid in index.Values
    ensures exists i :: 0 <= i < |assets| && assets[i].id == x.assetId
                        && RunOutcome(index, assets[..i], matches, agentsFor).fault.None?
                        && AssetYields(index, assets[i], matches, agentsFor, x)
  {
    var init := assets[..|assets| - 1];
    var last := assets[|assets| - 1];
    var before := RunOutcome(index, init, matches, agentsFor);
    if x in before.emitted {
      RunProvenance(index, init, matches, agentsFor, x);
      var i :| 0 <= i < |init| && init[i].id == x.assetId
               && RunOutcome(index, init[..i], matches, agentsFor).fault.None?
               && AssetYields(index, init[i], matches, agentsFor, x);
      assert assets[i] == init[i];
      assert init[..i] == assets[..i];
    } else {
      var agents := agentsFor(Canonical(last.tenableUuid[0]));
      AgentsEmission(index, last.id, agents, x);
      var j :| 0 <= j < |agents| && Reached(agents, j) && Yields(index, last.id, agents[j], x);
      assert index[agents[j].groups[0].name] == x.tagUuid;
      assert assets[..|assets| - 1] == init;
      assert AssetYields(index, last, matches, agentsFor, x);
    }
  }

  /** Whatever an asset yields is among what that asset contributes. */
  lemma AssetYieldIsEmitted(index: map<string, string>, asset: Asset, matches: Pattern, agentsFor: AgentListing, x: Assignment)
    requires AssetYields(index, asset, matches, agentsFor, x)
    ensures x in AssetOutcome(index, asset, matches, agentsFor).emitted
  {
    var agents := agentsFor(Canonical(asset.tenableUuid[0]));
    var j :| 0 <= j < |agents| && Reached(agents, j) && Yields(index, asset.id, agents[j], x);
    YieldedIsEmitted(index, asset.id, agents, x, j);
  }

  /**
   Conversely, whatever an asset yields is emitted by the run, provided the
   run reaches that asset without a fault.
   */
  lemma {:induction false} YieldedByAssetIsEmitted(index: map<string, string>, assets: seq<Asset>, matches: Pattern, agentsFor: AgentListing, x: Assignment, k: nat)
    requires k < |assets|
    requires RunOutcome(index, assets[..k], matches, agentsFor).fault.None?
    requires AssetYields(index, assets[k], matches, agentsFor, x)
    ensures x in RunOutcome(index, assets, matches, agentsFor).emitted
    decreases |assets|
  {
    var init := assets[..|assets| - 1];
    if k == |init| {
      AssetYieldIsEmitted(index, assets[k], matches, agentsFor, x);
      assert assets[..k] == init;
    } else {
      assert init[..k] == assets[..k] && init[k] == assets[k];
      YieldedByAssetIsEmitted(index, init, matches, agentsFor, x, k);
    }
  }

  /**
   Run-level emission: an assignment is emitted exactly when some asset the run
   reaches without a fault yields it.
   */
  lemma RunEmission(index: map<string, string>, assets: seq<Asset>, matches: Pattern, agentsFor: AgentListing, x: Assignment)
    ensures x in RunOutcome(index, assets, matches, agentsFor).emitted <==>
            exists i :: 0 <= i < |assets|
                        && RunOutcome(index, assets[..i], matches, agentsFor).fault.None?
                        && AssetYields(index, assets[i], matches, agentsFor, x)
  {
    if x in RunOutcome(index, assets, matches, agentsFor).emitted {
      RunProvenance(index, assets, matches, agentsFor, x);
    }
    if exists i :: 0 <= i < |assets|
                   && RunOutcome(index, assets[..i], matches, agentsFor).fault.None?
                   && AssetYields(index, assets[i], matches, agentsFor, x) {
      var i :| 0 <= i < |assets|
               && RunOutcome(index, assets[..i], matches, agentsFor).fault.None?
               && AssetYields(index, assets[i], matches, agentsFor, x);
      YieldedByAssetIsEmitted(index, assets, matches, agentsFor, x, i);
    }
  }

  /** End to end: every emitted tag uuid belongs to a listed tag whose value matches the pattern. */
  lemma PipelineTagsMatch(tags: seq<Tag>, assets: seq<Asset>, matches: Pattern, agentsFor: AgentListing, x: Assignment)
    requires x in Pipeline(tags, assets, matches, agentsFor).emitted
    ensures exists j :: 0 <= j < |tags| && matches(tags[j].value) && tags[j].uuid == x.tagUuid
  {
    RunProvenance(IndexOf(tags, matches), assets, matches, agentsFor, x);
    IndexValues(tags, matches, x.tagUuid);
  }

}
