/** get_groups: the (desired capacity, in-service ids) pairs of a describe-groups response. */
module Groups {
  import opened Provider

  /** One entry of get_groups' result: a group's desired capacity and the ids
      of its in-service members. */
  datatype GroupInfo = GroupInfo(capacity: int, ids: seq<string>)

  /** The ids of the members whose lifecycle state is InService, in the order
      the response lists them. */
  function InServiceIds(members: seq<Member>): seq<string>
  {
    if members == [] then []
    else
      var last := members[|members| - 1];
      InServiceIds(members[..|members| - 1]) + (if last.lifecycleState == IN_SERVICE then [last.instanceId] else [])
  }

  /** get_groups' result for a whole response: one entry per group, in order. */
  function GroupInfos(response: seq<AsgGroup>): seq<GroupInfo>
  {
    seq(|response|, i requires 0 <= i < |response| =>
      GroupInfo(response[i].desiredCapacity, InServiceIds(response[i].instances)))
  }

  /** The filter distributes over concatenation: order is kept, and each
      member contributes on its own. */
  lemma {:induction false} InServiceIdsConcat(a: seq<Member>, b: seq<Member>)
    ensures InServiceIds(a + b) == InServiceIds(a) + InServiceIds(b)
    decreases |b|
  {
    if b == [] {
      assert a + b == a;
    } else {
      var b' := b[..|b| - 1];
      assert (a + b)[..|a + b| - 1] == a + b';
      assert (a + b)[|a + b| - 1] == b[|b| - 1];
      InServiceIdsConcat(a, b');
    }
  }

  /** A single member contributes its id exactly when it is in service. */
  lemma InServiceIdsSingle(m: Member)
    ensures InServiceIds([m]) == if m.lifecycleState == IN_SERVICE then [m.instanceId] else []
  {
    assert [m][..0] == [];
  }

  /** An id is returned exactly when some in-service member carries it. */
  lemma {:induction false} InServiceIdsMembership(members: seq<Member>, id: string)
    ensures id in InServiceIds(members) <==>
      exists i :: 0 <= i < |members| && members[i].instanceId == id && members[i].lifecycleState == IN_SERVICE
    decreases |members|
  {
    if members != [] {
      var init := members[..|members| - 1];
      InServiceIdsMembership(init, id);
      var last := |members| - 1;
      if id in InServiceIds(members) {
        if id in InServiceIds(init) {
          var i :| 0 <= i < |init| && init[i].instanceId == id && init[i].lifecycleState == IN_SERVICE;
          assert members[i] == init[i];
        } else {
          assert members[last].instanceId == id && members[last].lifecycleState == IN_SERVICE;
        }
      } else {
        forall i | 0 <= i < |members|
          ensures !(members[i].instanceId == id && members[i].lifecycleState == IN_SERVICE)
        {
          if i < last {
            assert members[i] == init[i];
          }
        }
      }
    }
  }

  /** The result never lists more ids than the group has members. */
  lemma {:induction false} InServiceIdsLength(members: seq<Member>)
    ensures |InServiceIds(members)| <= |members|
    decreases |members|
  {
    if members != [] {
      InServiceIdsLength(members[..|members| - 1]);
    }
  }

  /** The loops of get_groups: for each group, collect the in-service ids,
      then append (capacity, ids). */
  method FilterGroups(response: seq<AsgGroup>) returns (groupInfo: seq<GroupInfo>)
    ensures |groupInfo| == |response|
    ensures forall i :: 0 <= i < |response| ==>
      groupInfo[i].capacity == response[i].desiredCapacity &&
      groupInfo[i].ids == InServiceIds(response[i].instances)
    ensures groupInfo == GroupInfos(response)
  {
    groupInfo := [];
    for g := 0 to |response|
      invariant |groupInfo| == g
      invariant forall i :: 0 <= i < g ==>
        groupInfo[i] == GroupInfo(response[i].desiredCapacity, InServiceIds(response[i].instances))
    {
      var group := response[g];
      var ids := [];
      for k := 0 to |group.instances|
        invariant ids == InServiceIds(group.instances[..k])
      {
        var instance := group.instances[k];
        assert group.instances[..k + 1][..k] == group.instances[..k];
        if instance.lifecycleState == IN_SERVICE {
          ids := ids + [instance.instanceId];
        }
      }
      assert group.instances[..|group.instances|] == group.instances;
      groupInfo := groupInfo + [GroupInfo(group.desiredCapacity, ids)];
    }
  }
}
