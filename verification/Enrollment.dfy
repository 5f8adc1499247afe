// Enrolment tokens, enrolment and renewal: which identity a certificate may carry, and where it comes from.
module Enrollment {
  import opened Wrappers
  import opened Strings
  import opened Spiffe

  // A row of `tokens`; times are Unix seconds.
  datatype Token = Token(expiresAt: int, consumed: bool, boundId: Option<string>, ws: string)

  type Tokens = map<string, Token>

  // A token is good for its first id and, until it expires, for that id again.
  predicate Usable(tokens: Tokens, token: string, id: string, now: int) {
    && token in tokens && now <= tokens[token].expiresAt
    && (tokens[token].consumed ==> tokens[token].boundId == Some(id))
  }

  function Bound(tokens: Tokens, token: string, id: string): Tokens
    requires token in tokens
  {
    if tokens[token].consumed then tokens else tokens[token := tokens[token].(consumed := true, boundId := Some(id))]
  }

  function Unbound(tokens: Tokens, id: string): Tokens {
    map t | t in tokens && tokens[t].boundId != Some(id) :: tokens[t]
  }

  class TokenStore {
    var rows: Tokens
    const ttl: int

    constructor (ttlMinutes: int)
      ensures rows == map[] && ttl == if ttlMinutes > 0 then ttlMinutes * 60 else 24 * 3600
    {
      rows := map[];
      ttl := if ttlMinutes > 0 then ttlMinutes * 60 else 24 * 3600;
    }

    // The value is random; a failing insert is an error.
    method CreateTokenForWorkspace(value: string, ws: string, now: int, insertFails: bool) returns (ok: bool)
      modifies this
      ensures ok <==> !insertFails && value !in old(rows)
      ensures rows == if ok then old(rows)[value := Token(now + ttl, false, None, ws)] else old(rows)
    {
      if insertFails || value in rows {
        return false;
      }
      rows := rows[value := Token(now + ttl, false, None, ws)];
      return true;
    }

    method ConsumeTokenWithWorkspace(token: string, id: string, now: int, updateFails: bool)
        returns (ws: Option<string>)
      modifies this
      ensures ws.Some? <==>
        && token in old(rows) && now <= old(rows)[token].expiresAt
        && if old(rows)[token].consumed then old(rows)[token].boundId == Some(id) else !updateFails
      ensures ws.Some? ==> ws.value == old(rows)[token].ws
      ensures rows == if ws.Some? then Bound(old(rows), token, id) else old(rows)
    {
      if token !in rows {
        return None;
      }
      var row := rows[token];
      if now > row.expiresAt {
        return None;
      }
      if row.consumed {
        if row.boundId == Some(id) {
          return Some(row.ws);
        }
        return None;
      }
      if updateFails {
        return None;
      }
      rows := rows[token := row.(consumed := true, boundId := Some(id))];
      return Some(row.ws);
    }

    method DeleteByConnectorId(id: string)
      modifies this
      ensures rows == Unbound(old(rows), id)
      ensures forall t :: t in rows <==> t in old(rows) && old(rows)[t].boundId != Some(id)
      ensures forall t :: t in rows ==> rows[t] == old(rows)[t]
    {
      rows := map t | t in rows && rows[t].boundId != Some(id) :: rows[t];
    }
  }

  // --- Enrolment and renewal, step by step ---

  // The trust domains of the controller and of its workspaces, which do not change.
  datatype Setup = Setup(globalDomain: string, systemDomain: string, domains: map<string, string>,
                         hasWorkspaces: bool, roles: set<string>)

  ghost predicate ProperSetup(c: Setup) {
    SlashFree(c.globalDomain) && forall ws :: ws in c.domains ==> SlashFree(c.domains[ws])
  }

  function DomainOf(c: Setup, ws: string): Option<string> {
    if ws == "" || !c.hasWorkspaces then Some(c.globalDomain)
    else if ws in c.domains then Some(c.domains[ws])
    else None
  }

  // Where a certificate comes from: a token with its workspace and the id it was asked with, or the
  // renewal of an earlier certificate.
  datatype Source = Enrolled(token: string, ws: string) | Renewed(of: nat)

  datatype Cert = Cert(uri: Url, role: string, id: string, source: Source)

  // History: the workspace each token was created for.
  datatype World = World(now: int, tokens: Tokens, created: map<string, string>, certs: seq<Cert>)

  datatype Action =
    | Tick(d: nat)
    | Create(token: string, ws: string, expiresAt: int)
    | Consume(token: string, id: string)
    | Enrol(role: string, token: string, id: string, lookupFails: bool)
    | Renew(of: nat, id: string)
    | Delete(id: string)

  const INITIAL := World(0, map[], map[], [])

  predicate Enabled(c: Setup, w: World, a: Action) {
    match a
    case Create(token, _, _) => token !in w.created
    case Consume(_, id) => id != ""
    case Enrol(role, token, id, _) =>
      role in {"connector", "tunneler"} && ValidId(id) && (role == "tunneler" ==> token != "")
    case Renew(of, id) =>
      && of < |w.certs| && ValidId(id)
      && var seen := Intercept(w.certs[of].uri, c.globalDomain, c.systemDomain, c.roles);
      && seen.Some?
      && var who := IdentityMultiDomain(seen.value.0, seen.value.1);
      && who.Some? && who.value.1 == id
    case _ => true
  }

  // The token is bound before the workspace is looked up, and stays so when that fails.
  function DoEnrol(c: Setup, w: World, role: string, token: string, id: string, lookupFails: bool): World {
    if !Usable(w.tokens, token, id, w.now) then w
    else
      var ws := w.tokens[token].ws;
      var bound := w.(tokens := Bound(w.tokens, token, id));
      var domain := DomainOf(c, ws);
      if domain.None? || (lookupFails && ws != "" && c.hasWorkspaces) then bound
      else bound.(certs := w.certs + [Cert(Printed(domain.value, role, id), role, id, Enrolled(token, ws))])
  }

  // The renewed certificate carries the caller's URI; role and id are those the request was checked with.
  function DoRenew(c: Setup, w: World, of: nat, id: string): World
    requires Enabled(c, w, Renew(of, id))
  {
    var role := Intercept(w.certs[of].uri, c.globalDomain, c.systemDomain, c.roles).value.1;
    w.(certs := w.certs + [Cert(w.certs[of].uri, role, id, Renewed(of))])
  }

  function Step(c: Setup, w: World, a: Action): World
    requires Enabled(c, w, a)
  {
    match a
    case Tick(d) => w.(now := w.now + d)
    case Create(token, ws, expiresAt) =>
      w.(tokens := w.tokens[token := Token(expiresAt, false, None, ws)], created := w.created[token := ws])
    case Consume(token, id) =>
      if Usable(w.tokens, token, id, w.now) then w.(tokens := Bound(w.tokens, token, id)) else w
    case Enrol(role, token, id, lookupFails) => DoEnrol(c, w, role, token, id, lookupFails)
    case Renew(of, id) => DoRenew(c, w, of, id)
    case Delete(id) => w.(tokens := Unbound(w.tokens, id))
  }

  predicate ValidRun(c: Setup, w: World, run: seq<Action>)
    decreases |run|
  {
    run != [] ==> Enabled(c, w, run[0]) && ValidRun(c, Step(c, w, run[0]), run[1..])
  }

  function After(c: Setup, w: World, run: seq<Action>): World
    requires ValidRun(c, w, run)
    decreases |run|
  {
    if run == [] then w else After(c, Step(c, w, run[0]), run[1..])
  }

  // --- What every step keeps ---

  // An enrolled certificate prints its own role and id, and its token, while stored, is bound to that id.
  predicate EnrolledOk(c: Setup, w: World, x: Cert)
    requires x.source.Enrolled?
  {
    var t := x.source.token;
    && ValidId(x.id) && x.role in {"connector", "tunneler"}
    && DomainOf(c, x.source.ws).Some? && x.uri == Printed(DomainOf(c, x.source.ws).value, x.role, x.id)
    && t in w.created && w.created[t] == x.source.ws
    && (t in w.tokens ==> w.tokens[t].consumed && w.tokens[t].boundId == Some(x.id))
  }

  // A renewed certificate repeats an earlier one.
  predicate RenewedOk(certs: seq<Cert>, i: nat)
    requires i < |certs| && certs[i].source.Renewed?
  {
    var j := certs[i].source.of;
    j < i && certs[i] == certs[j].(source := certs[i].source)
  }

  predicate SameToken(x: Cert, y: Cert) {
    x.source.Enrolled? && y.source.Enrolled? && x.source.token == y.source.token
  }

  ghost predicate Inv(c: Setup, w: World) {
    && (forall t :: t in w.tokens ==> t in w.created && w.tokens[t].ws == w.created[t])
    && (forall i :: 0 <= i < |w.certs| && w.certs[i].source.Enrolled? ==> EnrolledOk(c, w, w.certs[i]))
    && (forall i :: 0 <= i < |w.certs| && w.certs[i].source.Renewed? ==> RenewedOk(w.certs, i))
    && (forall i, j :: 0 <= i < |w.certs| && 0 <= j < |w.certs| && SameToken(w.certs[i], w.certs[j]) ==>
          w.certs[i].id == w.certs[j].id)
  }

  // Following renewals back ends at an enrolment of the same URI, role and id.
  lemma {:induction false} Origin(c: Setup, w: World, i: nat) returns (j: nat)
    requires Inv(c, w) && i < |w.certs|
    ensures j <= i && w.certs[j].source.Enrolled? && w.certs[i] == w.certs[j].(source := w.certs[i].source)
    ensures EnrolledOk(c, w, w.certs[j])
  {
    if w.certs[i].source.Enrolled? {
      j := i;
    } else {
      assert RenewedOk(w.certs, i);
      j := Origin(c, w, w.certs[i].source.of);
    }
  }

  // A renewal is checked with the role and id that were enrolled.
  lemma RenewalRepeats(c: Setup, w: World, of: nat, id: string)
    requires ProperSetup(c) && Inv(c, w) && Enabled(c, w, Renew(of, id))
    ensures DoRenew(c, w, of, id) == w.(certs := w.certs + [w.certs[of].(source := Renewed(of))])
  {
    var j := Origin(c, w, of);
    var x := w.certs[j];
    PrintParse(DomainOf(c, x.source.ws).value, x.role, x.id, c.globalDomain, c.systemDomain, c.roles);
  }

  lemma BoundKeeps(c: Setup, w: World, token: string, id: string)
    requires Inv(c, w) && Usable(w.tokens, token, id, w.now)
    ensures Inv(c, w.(tokens := Bound(w.tokens, token, id)))
  {
  }

  // A certificate of a token that is bound to its id.
  lemma AppendKeeps(c: Setup, w: World, x: Cert)
    requires Inv(c, w) && x.source.Enrolled? && EnrolledOk(c, w, x) && x.source.token in w.tokens
    ensures Inv(c, w.(certs := w.certs + [x]))
  {
    forall y | y in w.certs && SameToken(y, x) ensures y.id == x.id {
      assert EnrolledOk(c, w, y);
    }
  }

  lemma EnrolKeeps(c: Setup, w: World, role: string, token: string, id: string, lookupFails: bool)
    requires Inv(c, w) && Enabled(c, w, Enrol(role, token, id, lookupFails))
    ensures Inv(c, DoEnrol(c, w, role, token, id, lookupFails))
  {
    if Usable(w.tokens, token, id, w.now) {
      var ws := w.tokens[token].ws;
      BoundKeeps(c, w, token, id);
      if DomainOf(c, ws).Some? {
        var x := Cert(Printed(DomainOf(c, ws).value, role, id), role, id, Enrolled(token, ws));
        AppendKeeps(c, w.(tokens := Bound(w.tokens, token, id)), x);
      }
    }
  }

  lemma RepeatKeeps(c: Setup, w: World, of: nat)
    requires Inv(c, w) && of < |w.certs|
    ensures Inv(c, w.(certs := w.certs + [w.certs[of].(source := Renewed(of))]))
  {
  }

  lemma RenewKeeps(c: Setup, w: World, of: nat, id: string)
    requires ProperSetup(c) && Inv(c, w) && Enabled(c, w, Renew(of, id))
    ensures Inv(c, DoRenew(c, w, of, id))
  {
    RenewalRepeats(c, w, of, id);
    RepeatKeeps(c, w, of);
  }

  lemma StepKeeps(c: Setup, w: World, a: Action)
    requires ProperSetup(c) && Inv(c, w) && Enabled(c, w, a)
    ensures Inv(c, Step(c, w, a))
  {
    match a
    case Enrol(role, token, id, lookupFails) => EnrolKeeps(c, w, role, token, id, lookupFails);
    case Renew(of, id) => RenewKeeps(c, w, of, id);
    case _ =>
  }

  lemma {:induction false} RunKeeps(c: Setup, w: World, run: seq<Action>)
    requires ProperSetup(c) && Inv(c, w) && ValidRun(c, w, run)
    ensures Inv(c, After(c, w, run))
    decreases |run|
  {
    if run != [] {
      StepKeeps(c, w, run[0]);
      RunKeeps(c, Step(c, w, run[0]), run[1..]);
    }
  }

  // --- What an enrolment does ---

  // It issues a certificate exactly for a stored token that has not expired and is unconsumed or bound to this
  // id, when the trust domain is found; and the token is bound to the id then, whether it is found or not.
  lemma EnrolOutcome(c: Setup, w: World, role: string, token: string, id: string, lookupFails: bool)
    requires Enabled(c, w, Enrol(role, token, id, lookupFails))
    ensures var v := Step(c, w, Enrol(role, token, id, lookupFails));
      var good := token in w.tokens && w.now <= w.tokens[token].expiresAt
                  && (!w.tokens[token].consumed || w.tokens[token].boundId == Some(id));
      && (|v.certs| > |w.certs| <==> good && DomainFound(c, w.tokens[token].ws, lookupFails))
      && v.tokens.Keys == w.tokens.Keys
      && (forall t :: t in v.tokens && (t != token || !good) ==> v.tokens[t] == w.tokens[t])
      && (good ==> v.tokens[token].consumed && (!w.tokens[token].consumed ==> v.tokens[token].boundId == Some(id)))
      && (good ==> v.tokens[token].ws == w.tokens[token].ws && v.tokens[token].expiresAt == w.tokens[token].expiresAt)
  {
  }

  predicate DomainFound(c: Setup, ws: string, lookupFails: bool) {
    ws == "" || !c.hasWorkspaces || (ws in c.domains && !lookupFails)
  }

  // A deleted token cannot be used again, and no other token is lost.
  lemma DeleteOutcome(c: Setup, w: World, id: string, token: string)
    ensures token in Step(c, w, Delete(id)).tokens <==> token in w.tokens && w.tokens[token].boundId != Some(id)
    ensures token in Step(c, w, Delete(id)).tokens ==> Step(c, w, Delete(id)).tokens[token] == w.tokens[token]
  {
  }

  // --- Provenance ---

  // All certificates enrolled with one token carry one id and the trust domain of the token's workspace.
  lemma OneIdentityAToken(c: Setup, run: seq<Action>, i: nat, j: nat)
    requires ProperSetup(c) && ValidRun(c, INITIAL, run)
    requires var s := After(c, INITIAL, run).certs; i < |s| && j < |s| && SameToken(s[i], s[j])
    ensures var w := After(c, INITIAL, run);
      var s, token := w.certs, w.certs[i].source.token;
      && s[i].id == s[j].id
      && token in w.created && s[i].uri.host == s[j].uri.host
      && var ws := w.created[token];
      && (if ws == "" || !c.hasWorkspaces then s[i].uri.host == c.globalDomain
          else ws in c.domains && s[i].uri.host == c.domains[ws])
      && Text(s[i].uri) == Print(s[i].uri.host, s[i].role, s[i].id)
  {
    RunKeeps(c, INITIAL, run);
    var w := After(c, INITIAL, run);
    assert EnrolledOk(c, w, w.certs[i]) && EnrolledOk(c, w, w.certs[j]);
    PrintParse(w.certs[i].uri.host, w.certs[i].role, w.certs[i].id, "", "", {});
  }

  // The token is spent on this id, in store and in every certificate.
  ghost predicate SpentOn(w: World, token: string, id: string) {
    && token in w.created
    && (token in w.tokens ==> w.tokens[token].consumed && w.tokens[token].boundId == Some(id))
    && forall i :: 0 <= i < |w.certs| && w.certs[i].source.Enrolled? && w.certs[i].source.token == token ==>
         w.certs[i].id == id
  }

  lemma StepSpent(c: Setup, w: World, a: Action, token: string, id: string)
    requires Enabled(c, w, a) && SpentOn(w, token, id)
    ensures SpentOn(Step(c, w, a), token, id)
  {
  }

  lemma {:induction false} RunSpent(c: Setup, w: World, run: seq<Action>, token: string, id: string)
    requires ValidRun(c, w, run) && SpentOn(w, token, id)
    ensures SpentOn(After(c, w, run), token, id)
    decreases |run|
  {
    if run != [] {
      StepSpent(c, w, run[0], token, id);
      RunSpent(c, Step(c, w, run[0]), run[1..], token, id);
    }
  }

  // The first request that a token is good for, an enrolment or not, decides for which id it is ever good: no
  // continuation enrols another id with it, whatever was enrolled before.
  lemma BoundForGood(c: Setup, before: seq<Action>, token: string, id: string, a: Action, rest: seq<Action>)
    requires ProperSetup(c) && ValidRun(c, INITIAL, before) && Enabled(c, After(c, INITIAL, before), a)
    requires a == Consume(token, id) || (a.Enrol? && a.token == token && a.id == id)
    requires var w := After(c, INITIAL, before);
      && token in w.tokens && w.now <= w.tokens[token].expiresAt
      && (w.tokens[token].consumed ==> w.tokens[token].boundId == Some(id))
    requires ValidRun(c, Step(c, After(c, INITIAL, before), a), rest)
    ensures SpentOn(After(c, Step(c, After(c, INITIAL, before), a), rest), token, id)
  {
    RunKeeps(c, INITIAL, before);
    var w := After(c, INITIAL, before);
    forall i | 0 <= i < |w.certs| && w.certs[i].source.Enrolled? && w.certs[i].source.token == token
      ensures w.certs[i].id == id
    {
      assert EnrolledOk(c, w, w.certs[i]);
    }
    RunSpent(c, Step(c, w, a), rest, token, id);
  }

  // Every certificate, however often renewed, goes back to an enrolment of the same URI, role and id.
  lemma RenewedWasEnrolled(c: Setup, run: seq<Action>, i: nat) returns (j: nat)
    requires ProperSetup(c) && ValidRun(c, INITIAL, run) && i < |After(c, INITIAL, run).certs|
    ensures var s := After(c, INITIAL, run).certs;
      j <= i && s[j].source.Enrolled? && s[j].uri == s[i].uri && s[j].role == s[i].role && s[j].id == s[i].id
  {
    RunKeeps(c, INITIAL, run);
    j := Origin(c, After(c, INITIAL, run), i);
  }

  lemma RunStep(c: Setup, w: World, a: Action, rest: seq<Action>)
    requires Enabled(c, w, a) && ValidRun(c, Step(c, w, a), rest)
    ensures ValidRun(c, w, [a] + rest) && After(c, w, [a] + rest) == After(c, Step(c, w, a), rest)
  {
    assert ([a] + rest)[1..] == rest;
  }

  // One token can enrol a connector and an agent of that id.
  lemma TwoRolesAToken(c: Setup, id: string) returns (run: seq<Action>)
    requires ValidId(id)
    ensures ValidRun(c, INITIAL, run)
    ensures var s := After(c, INITIAL, run).certs;
      |s| == 2 && SameToken(s[0], s[1]) && s[0].role == "connector" && s[1].role == "tunneler"
  {
    var a0, a1, a2 := Create("t", "", 1), Enrol("connector", "t", id, false), Enrol("tunneler", "t", id, false);
    var w1 := Step(c, INITIAL, a0);
    var w2 := Step(c, w1, a1);
    RunStep(c, w2, a2, []);
    RunStep(c, w1, a1, [a2] + []);
    RunStep(c, INITIAL, a0, [a1] + ([a2] + []));
    run := [a0] + ([a1] + ([a2] + []));
  }
}
