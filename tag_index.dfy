/**
 The tag index: every tag of the listing whose value satisfies the organisation
 pattern, keyed by that value and mapped to the tag's uuid.
 */
module TagIndex {

  import opened Inventory

  /**
   The index after the loop has seen `tags`: a matching tag writes its uuid
   under its value, overwriting what an earlier tag with the same value wrote.
   */
  function IndexOf(tags: seq<Tag>, matches: Pattern): (index: map<string, string>)
  {
    if |tags| == 0 then map[]
    else
      var index := IndexOf(tags[..|tags| - 1], matches);
      var last := tags[|tags| - 1];
      if matches(last.value) then index[last.value := last.uuid] else index
  }

  /** Builds the index by one pass over the tag listing, updating the map in place. */
  method BuildIndex(tags: seq<Tag>, matches: Pattern) returns (index: map<string, string>)
    ensures index == IndexOf(tags, matches)
    ensures forall k :: k in index ==> matches(k)
    ensures forall i :: 0 <= i < |tags| && matches(tags[i].value) ==> tags[i].value in index
  {
    index := map[];
    for i := 0 to |tags|
      invariant index == IndexOf(tags[..i], matches)
    {
      assert tags[..i + 1][..i] == tags[..i];
      if matches(tags[i].value) {
        index := index[tags[i].value := tags[i].uuid];
      }
    }
    assert tags[..|tags|] == tags;
    forall k | k in index
      ensures matches(k)
    {
      IndexKeys(tags, matches, k);
    }
    forall i | 0 <= i < |tags| && matches(tags[i].value)
      ensures tags[i].value in index
    {
      IndexKeys(tags, matches, tags[i].value);
    }
  }

  /** A value is a key of the index exactly when it matches and some tag carries it. */
  lemma {:induction false} IndexKeys(tags: seq<Tag>, matches: Pattern, k: string)
    ensures k in IndexOf(tags, matches) <==>
            matches(k) && exists i :: 0 <= i < |tags| && tags[i].value == k
  {
    if |tags| > 0 {
      var init := tags[..|tags| - 1];
      IndexKeys(init, matches, k);
      if k in IndexOf(init, matches) {
        var i :| 0 <= i < |init| && init[i].value == k;
        assert tags[i].value == k;
      }
      if matches(k) && exists i :: 0 <= i < |tags| && tags[i].value == k {
        var i :| 0 <= i < |tags| && tags[i].value == k;
        if i < |init| {
          assert init[i].value == k;
        }
      }
    }
  }

  /**
   The uuid stored under a key is that of the LAST tag in the listing whose
   value is that key.
   */
  lemma {:induction false} IndexLastWins(tags: seq<Tag>, matches: Pattern, k: string)
    requires k in IndexOf(tags, matches)
    ensures exists j :: 0 <= j < |tags| && tags[j].value == k
                        && IndexOf(tags, matches)[k] == tags[j].uuid
                        && forall j' :: j < j' < |tags| ==> tags[j'].value != k
  {
    var init := tags[..|tags| - 1];
    var last := tags[|tags| - 1];
    if matches(last.value) && last.value == k {
      assert tags[|tags| - 1].value == k;
    } else {
      IndexLastWins(init, matches, k);
      IndexKeys(init, matches, k);
      var j :| 0 <= j < |init| && init[j].value == k
               && IndexOf(init, matches)[k] == init[j].uuid
               && forall j' :: j < j' < |init| ==> init[j'].value != k;
      assert tags[j] == init[j];
      forall j' | j < j' < |tags|
        ensures tags[j'].value != k
      {
        if j' < |init| {
          assert tags[j'] == init[j'];
        }
      }
    }
  }

  /** Every uuid in the index belongs to a tag whose value matches the pattern. */
  lemma IndexValues(tags: seq<Tag>, matches: Pattern, v: string)
    requires v in IndexOf(tags, matches).Values
    ensures exists j :: 0 <= j < |tags| && matches(tags[j].value) && tags[j].uuid == v
  {
    var k :| k in IndexOf(tags, matches) && IndexOf(tags, matches)[k] == v;
    IndexKeys(tags, matches, k);
    IndexLastWins(tags, matches, k);
  }

}
