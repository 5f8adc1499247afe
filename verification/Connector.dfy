// The connector's handling of a policy snapshot: filter and expand it, store the result, broadcast it.
module Connector {
  import opened Wrappers
  import opened Enforcement
  import opened PolicyPorts

  class PolicyPublisher {
    // What a new agent connection reads first.
    var latest: Option<seq<PortRule>>
    // Everything broadcast so far.
    var channel: seq<seq<PortRule>>

    // Between two control messages the stored policy is the one broadcast last.
    ghost predicate Valid()
      reads this
    {
      latest == if channel == [] then None else Some(channel[|channel| - 1])
    }

    constructor ()
      ensures Valid() && channel == []
    {
      latest := None;
      channel := [];
    }

    // `accepted` is the policy cache's verdict on the snapshot (signature and validity).
    method HandlePolicySnapshot(rows: seq<ResourceRow>, accepted: bool)
      requires Valid()
      modifies this
      ensures Valid()
      ensures channel == old(channel)
        + if accepted && PushedRules(rows).Some? then [PushedRules(rows).value] else []
    {
      var snapshot := DecodeAll(CompiledAll(rows));
      if snapshot.Some? && accepted {
        var resources := snapshot.value;
        var rules: seq<PortRule> := [];
        for i := 0 to |resources|
          invariant rules + ProtectedRules(resources[i..]) == ProtectedRules(resources)
        {
          assert resources[i..][1..] == resources[i + 1..];
          if resources[i].firewallStatus == "protected" {
            rules := rules + ExtractPortRules(resources[i]);
          }
        }
        assert resources[|resources|..] == [] && rules + [] == rules;
        latest := Some(rules);
        channel := channel + [rules];
      }
    }
  }
}
