// From resource rows in the controller's database to the port rules that agents receive.
module PolicyPorts {
  import opened Wrappers
  import opened PacketFilter
  import opened Enforcement

  // A row of `resources`; the four columns may be NULL.
  datatype ResourceRow = ResourceRow(
    id: string, protocol: Option<string>, portFrom: Option<int>, portTo: Option<int>, firewallStatus: Option<string>)

  // The compiled resource as the controller serializes it.
  datatype Resource = Resource(
    id: string, port: int, protocol: string, portFrom: Option<int>, portTo: Option<int>, firewallStatus: string)

  // The same resource as the connector reads it: every port is a u16.
  datatype WireResource = WireResource(
    id: string, port: Port, protocol: string, portFrom: Option<Port>, portTo: Option<Port>, firewallStatus: string)

  function Protocol(row: ResourceRow): string {
    if row.protocol.Some? && row.protocol.value != "" then row.protocol.value else "TCP"
  }

  function Status(row: ResourceRow): string {
    if row.firewallStatus.Some? && row.firewallStatus.value != "" then row.firewallStatus.value else "unprotected"
  }

  // `port` repeats a single port and is 0 for every proper range.
  function SinglePort(row: ResourceRow): int {
    match (row.portFrom, row.portTo)
    case (Some(f), Some(t)) => if f == t then f else 0
    case (Some(f), None) => f
    case (None, _) => 0
  }

  function Compiled(row: ResourceRow): Resource {
    Resource(row.id, SinglePort(row), Protocol(row), row.portFrom, row.portTo, Status(row))
  }

  function CompiledAll(rows: seq<ResourceRow>): seq<Resource> {
    seq(|rows|, i requires 0 <= i < |rows| => Compiled(rows[i]))
  }

  method PolicyResources(rows: seq<ResourceRow>) returns (resources: seq<Resource>)
    ensures resources == CompiledAll(rows)
  {
    resources := [];
    for i := 0 to |rows|
      invariant resources == CompiledAll(rows[..i])
    {
      var row := rows[i];
      var fwStatus := "unprotected";
      if row.firewallStatus.Some? && row.firewallStatus.value != "" {
        fwStatus := row.firewallStatus.value;
      }
      var res := Resource(row.id, 0, "TCP", None, None, fwStatus);
      if row.protocol.Some? && row.protocol.value != "" {
        res := res.(protocol := row.protocol.value);
      }
      if row.portFrom.Some? {
        res := res.(portFrom := row.portFrom, port := row.portFrom.value);
      }
      if row.portTo.Some? {
        res := res.(portTo := row.portTo);
        if res.port == 0 || res.port != row.portTo.value {
          res := res.(port := 0);
        }
      }
      assert rows[..i + 1] == rows[..i] + [row];
      assert CompiledAll(rows[..i + 1]) == CompiledAll(rows[..i]) + [Compiled(row)];
      resources := resources + [res];
    }
    assert rows[..|rows|] == rows;
  }

  predicate Fits(v: int) { 0 <= v < 0x1_0000 }

  predicate OptionFits(v: Option<int>) { v.Some? ==> Fits(v.value) }

  function ToWire(v: Option<int>): Option<Port>
    requires OptionFits(v)
  {
    match v
    case None => None
    case Some(p) => Some(p)
  }

  function Decode(r: Resource): Option<WireResource> {
    if Fits(r.port) && OptionFits(r.portFrom) && OptionFits(r.portTo) then
      Some(WireResource(r.id, r.port, r.protocol, ToWire(r.portFrom), ToWire(r.portTo), r.firewallStatus))
    else None
  }

  // One resource that does not parse makes the whole snapshot unreadable.
  function DecodeAll(resources: seq<Resource>): Option<seq<WireResource>> {
    if resources == [] then Some([]) else
      match (Decode(resources[0]), DecodeAll(resources[1..]))
      case (Some(r), Some(rest)) => Some([r] + rest)
      case _ => None
  }

  function PortRange(from: Port, to: Port, protocol: string): seq<PortRule>
    decreases if from <= to then to - from else 0
  {
    if from > to then []
    else if from == to then [PortRule(from, protocol)]
    else [PortRule(from, protocol)] + PortRange(from + 1, to, protocol)
  }

  function ExtractPortRules(r: WireResource): seq<PortRule> {
    match (r.portFrom, r.portTo)
    case (Some(f), Some(t)) => PortRange(f, t, r.protocol)
    case _ => if r.port > 0 then [PortRule(r.port, r.protocol)] else []
  }

  function ProtectedRules(resources: seq<WireResource>): seq<PortRule> {
    if resources == [] then [] else
      (if resources[0].firewallStatus == "protected" then ExtractPortRules(resources[0]) else [])
      + ProtectedRules(resources[1..])
  }

  // What the connector pushes to its agents for these rows, if it can read the snapshot.
  function PushedRules(rows: seq<ResourceRow>): Option<seq<PortRule>> {
    match DecodeAll(CompiledAll(rows))
    case Some(resources) => Some(ProtectedRules(resources))
    case None => None
  }

  // --- What it means ---

  // The ports that a row asks to protect.
  predicate Declares(row: ResourceRow, p: Port) {
    && Status(row) == "protected"
    && match (row.portFrom, row.portTo)
       case (Some(f), Some(t)) => f <= p <= t
       case (Some(f), None) => p == f != 0
       case (None, _) => false
  }

  predicate PortsFit(row: ResourceRow) {
    OptionFits(row.portFrom) && OptionFits(row.portTo)
  }

  // From the first port to the last.
  lemma {:induction false} PortRangeAt(from: Port, to: Port, protocol: string, k: nat)
    requires from + k <= to
    ensures |PortRange(from, to, protocol)| == to - from + 1
    ensures PortRange(from, to, protocol)[k] == PortRule(from + k, protocol)
    decreases if from <= to then to - from else 0
  {
    if from < to {
      PortRangeAt(from + 1, to, protocol, if k > 0 then k - 1 else 0);
    }
  }

  lemma {:induction false} PortRangeMembers(from: Port, to: Port, protocol: string)
    ensures forall r :: r in PortRange(from, to, protocol) <==> r.protocol == protocol && from <= r.port <= to
    decreases if from <= to then to - from else 0
  {
    if from < to {
      PortRangeMembers(from + 1, to, protocol);
    }
  }

  lemma RowRules(row: ResourceRow, r: PortRule)
    requires PortsFit(row)
    ensures Decode(Compiled(row)).Some?
    ensures var wire := Decode(Compiled(row)).value;
      (wire.firewallStatus == "protected" && r in ExtractPortRules(wire))
        <==> Declares(row, r.port) && r.protocol == Protocol(row)
  {
    var wire := Decode(Compiled(row)).value;
    if wire.portFrom.Some? && wire.portTo.Some? {
      PortRangeMembers(wire.portFrom.value, wire.portTo.value, wire.protocol);
    }
  }

  // The snapshot is readable exactly when every port column of every row, protected or not, is a
  // u16; the rules then pushed are exactly the declared ports with their row's protocol.
  lemma {:induction false} PushedRulesAreDeclared(rows: seq<ResourceRow>)
    ensures PushedRules(rows).Some? <==> forall row :: row in rows ==> PortsFit(row)
    ensures PushedRules(rows).Some? ==> forall r :: r in PushedRules(rows).value <==>
      exists row :: row in rows && Declares(row, r.port) && r.protocol == Protocol(row)
  {
    if rows != [] {
      var row := rows[0];
      assert rows == [row] + rows[1..];
      assert CompiledAll(rows)[1..] == CompiledAll(rows[1..]);
      PushedRulesAreDeclared(rows[1..]);
      if PortsFit(row) && PushedRules(rows[1..]).Some? {
        var rest := PushedRules(rows[1..]).value;
        forall r: PortRule ensures r in PushedRules(rows).value
          <==> (Declares(row, r.port) && r.protocol == Protocol(row)) || r in rest
        {
          RowRules(row, r);
        }
      }
    }
  }

  lemma PushedPorts(rows: seq<ResourceRow>, p: Port)
    requires PushedRules(rows).Some?
    ensures p in Ports(PushedRules(rows).value) <==> exists row :: row in rows && Declares(row, p)
  {
    PushedRulesAreDeclared(rows);
    var rules := PushedRules(rows).value;
    if exists row :: row in rows && Declares(row, p) {
      var row :| row in rows && Declares(row, p);
      assert PortRule(p, Protocol(row)) in rules;
    }
  }

  // --- In which order ---

  // The first row that declares the port.
  predicate FirstFor(rows: seq<ResourceRow>, i: nat, p: Port) {
    i < |rows| && Declares(rows[i], p) && forall j :: 0 <= j < i ==> !Declares(rows[j], p)
  }

  lemma {:induction false} OneProtocol(rules: seq<PortRule>, p: Port, protocol: string)
    requires p in Ports(rules) && forall r :: r in rules && r.port == p ==> r.protocol == protocol
    ensures FirstProtocol(rules, p) == Some(protocol)
  {
    FirstProtocolExists(rules, p);
  }

  // The rules are pushed in the order of the rows, so the first rule for a port, which the agent keeps, has
  // the protocol of the first row that declares it.
  lemma {:induction false} FirstPushed(rows: seq<ResourceRow>, i: nat, p: Port)
    requires PushedRules(rows).Some? && FirstFor(rows, i, p)
    ensures FirstProtocol(PushedRules(rows).value, p) == Some(Protocol(rows[i]))
  {
    var row := rows[0];
    PushedRulesAreDeclared(rows);
    assert row in rows && PortsFit(row);
    assert CompiledAll(rows)[1..] == CompiledAll(rows[1..]);
    var wire := Decode(Compiled(row)).value;
    var own := if wire.firewallStatus == "protected" then ExtractPortRules(wire) else [];
    var rest := PushedRules(rows[1..]).value;
    forall r: PortRule ensures r in own <==> Declares(row, r.port) && r.protocol == Protocol(row) {
      RowRules(row, r);
    }
    FirstProtocolConcat(own, rest, p);
    if i == 0 {
      assert PortRule(p, Protocol(row)) in own;
      OneProtocol(own, p, Protocol(row));
    } else {
      assert forall j :: 0 <= j < i - 1 ==> rows[1..][j] == rows[j + 1];
      FirstPushed(rows[1..], i - 1, p);
    }
  }

  // What each column becomes: a NULL or empty protocol is TCP, a NULL or empty status is not protected, and
  // `port` is a port exactly when that is the only one the row names.
  lemma Columns(row: ResourceRow)
    ensures var r := Compiled(row);
      && r.id == row.id && r.portFrom == row.portFrom && r.portTo == row.portTo
      && (row.protocol in {None, Some("")} ==> r.protocol == "TCP")
      && (row.protocol !in {None, Some("")} ==> row.protocol == Some(r.protocol))
      && (row.firewallStatus in {None, Some("")} ==> r.firewallStatus == "unprotected")
      && (row.firewallStatus !in {None, Some("")} ==> row.firewallStatus == Some(r.firewallStatus))
      && (forall p :: p != 0 ==>
            (r.port == p <==> row.portFrom == Some(p) && (row.portTo == None || row.portTo == Some(p))))
  {
  }
}
