/** Agent identities: one-shot registration tokens, long-lived signed tokens that carry a
    version, and the row per host that decides which of them are accepted. */
module AgentIdentity {
  import opened Wrappers

  type HostId = string
  // Plaintext registration tokens; hashing is ideal, so a row's hash is the token it was made from.
  type Token = nat

  const TOKEN_TTL := 3600
  const JWT_TTL := 365 * 86400

  datatype Pending = Pending(token: Token, expires: int)

  /** The agent row of a host. */
  datatype Agent = Agent(pending: Option<Pending>, active: bool, version: nat)

  /** Claims of a signed agent token. */
  datatype Jwt = Jwt(host: HostId, version: nat, expires: int)

  /** What a connecting agent presents. Signatures are ideal: `Signed` is a token this
      server has issued, anything else that is not a registration token is `Unverifiable`. */
  datatype Bearer = Registration(token: Token) | Signed(jwt: Jwt) | Unverifiable

  // A row that a registration token fits at a given time.
  predicate Fits(rows: map<HostId, Agent>, h: HostId, token: Token, now: int) {
    h in rows && rows[h].pending.Some? && rows[h].pending.value.token == token && now <= rows[h].pending.value.expires
  }

  /** Which host a bearer authenticates as, in a table where no token is pending twice. */
  predicate Accepts(rows: map<HostId, Agent>, hosts: set<HostId>, bearer: Bearer, hint: Option<HostId>, now: int,
                    h: HostId)
  {
    && h in rows && h in hosts
    && match bearer
       case Registration(token) =>
         Fits(rows, h, token, now) && (if hint.Some? then hint.value == h else rows[h].active)
       case Signed(jwt) =>
         jwt.host == h && now < jwt.expires && rows[h].active && jwt.version == rows[h].version
       case Unverifiable => false
  }

  ghost predicate Distinct(rows: map<HostId, Agent>) {
    forall g, h :: g in rows && h in rows && rows[g].pending.Some? && rows[h].pending.Some?
      ==> rows[g].pending.value.token == rows[h].pending.value.token ==> g == h
  }

  function Minted(row: Option<Agent>, token: Token, now: int): Agent {
    Agent(Some(Pending(token, now + TOKEN_TTL)), true, (if row.Some? then row.value.version else 0) + 1)
  }

  function Revoked(row: Agent): Agent {
    Agent(None, false, row.version + 1)
  }

  function RowOf(rows: map<HostId, Agent>, h: HostId): Option<Agent> {
    if h in rows then Some(rows[h]) else None
  }

  class AgentTable {
    const hosts: set<HostId>
    var rows: map<HostId, Agent>

    constructor (hosts: set<HostId>)
      ensures this.hosts == hosts && rows == map[]
    {
      this.hosts, rows := hosts, map[];
    }

    /** mint_token: false when the host is unknown. */
    method Mint(h: HostId, token: Token, now: int) returns (ok: bool)
      modifies this
      ensures ok <==> h in hosts
      ensures rows == if ok then old(rows)[h := Minted(RowOf(old(rows), h), token, now)] else old(rows)
      ensures ok ==> rows[h].active && rows[h].pending == Some(Pending(token, now + 3600))
      ensures ok ==> rows[h].version == 1 + if h in old(rows) then old(rows)[h].version else 0
    {
      if h !in hosts {
        return false;
      }
      var row := if h in rows then rows[h] else Agent(None, true, 0);
      row := row.(pending := Some(Pending(token, now + TOKEN_TTL)));
      row := row.(active := true);
      row := row.(version := row.version + 1);
      rows := rows[h := row];
      return true;
    }

    /** revoke_agent: false when the host has no agent. */
    method Revoke(h: HostId) returns (ok: bool)
      modifies this
      ensures ok <==> h in old(rows)
      ensures rows == if ok then old(rows)[h := Revoked(old(rows)[h])] else old(rows)
      ensures ok ==> !rows[h].active && rows[h].pending == None && rows[h].version == old(rows)[h].version + 1
    {
      if h !in rows {
        return false;
      }
      rows := rows[h := Agent(None, false, rows[h].version + 1)];
      return true;
    }

    /** _authenticate: the scan of the candidate rows, or the check of the signed claims. */
    method Authenticate(bearer: Bearer, hint: Option<HostId>, now: int) returns (r: Option<HostId>)
      requires Distinct(rows)
      ensures r.Some? ==> Accepts(rows, hosts, bearer, hint, now, r.value)
      ensures r.None? ==> forall h :: !Accepts(rows, hosts, bearer, hint, now, h)
    {
      match bearer {
        case Registration(token) =>
          var candidates: set<HostId>;
          if hint.Some? {
            candidates := if hint.value in rows then {hint.value} else {};
          } else {
            candidates := set h | h in rows && rows[h].pending.Some? && rows[h].active;
          }
          while candidates != {}
            invariant candidates <= rows.Keys
            invariant forall h :: Accepts(rows, hosts, bearer, hint, now, h) ==> h in candidates
            invariant hint.Some? ==> candidates <= {hint.value}
            invariant hint.None? ==> forall h :: h in candidates ==> rows[h].active
            decreases candidates
          {
            var h :| h in candidates;
            candidates := candidates - {h};
            if Fits(rows, h, token, now) {
              if h !in hosts {
                assert forall g :: Accepts(rows, hosts, bearer, hint, now, g) ==> g == h;
                return None;
              }
              return Some(h);
            }
          }
          return None;
        case Signed(jwt) =>
          if now >= jwt.expires || jwt.host !in rows || !rows[jwt.host].active {
            return None;
          }
          if jwt.version != rows[jwt.host].version || jwt.host !in hosts {
            return None;
          }
          return Some(jwt.host);
        case Unverifiable =>
          return None;
      }
    }

    /** The authenticated part of agent_ws: the pending token is cleared whichever way the
        agent came in, and a token for the row's current version is issued. */
    method Connect(bearer: Bearer, hint: Option<HostId>, now: int) returns (issued: Option<Jwt>)
      requires Distinct(rows)
      modifies this
      ensures issued.None? ==> rows == old(rows) && forall h :: !Accepts(old(rows), hosts, bearer, hint, now, h)
      ensures issued.Some? ==>
                var h := issued.value.host;
                && Accepts(old(rows), hosts, bearer, hint, now, h)
                && issued.value == Jwt(h, old(rows)[h].version, now + 365 * 86400)
                && rows == old(rows)[h := old(rows)[h].(pending := None)]
    {
      var who := Authenticate(bearer, hint, now);
      if who.None? {
        return None;
      }
      var h := who.value;
      rows := rows[h := rows[h].(pending := None)];
      return Some(Jwt(h, rows[h].version, now + JWT_TTL));
    }
  }

  /** Minting and connecting: the fresh token brings its agent in, once, within the hour, and
      under no other host's name. */
  method MintThenConnect(table: AgentTable, h: HostId, token: Token, minted: int, hint: Option<HostId>, now: int)
    returns (issued: Option<Jwt>, again: Option<Jwt>)
    requires Distinct(table.rows) && h in table.hosts
    requires forall g :: g in table.rows && table.rows[g].pending.Some? ==> table.rows[g].pending.value.token != token
    modifies table
    ensures issued.Some? <==> (hint.None? || hint == Some(h)) && now <= minted + 3600
    ensures issued.Some? ==>
              && issued.value.host == h && issued.value.expires == now + 31536000
              && issued.value.version == 1 + if h in old(table.rows) then old(table.rows)[h].version else 0
    ensures again.None?
  {
    var _ := table.Mint(h, token, minted);
    assert Accepts(table.rows, table.hosts, Registration(token), hint, now, h)
           <==> (hint.None? || hint == Some(h)) && now <= minted + 3600;
    issued := table.Connect(Registration(token), hint, now);
    again := None;
    if issued.Some? {
      again := table.Connect(Registration(token), hint, now);
    }
  }

  // ---- Runs ----

  /** The table and everything that ever happened: which host each registration token was
      made for, every signed token issued, and the bearers accepted, in order. */
  datatype World = World(rows: map<HostId, Agent>, minted: map<Token, HostId>, issued: set<Jwt>, accepted: seq<Bearer>)

  datatype Action =
    | Mint(h: HostId, token: Token, now: int)
    | Revoke(h: HostId)
    | Connect(bearer: Bearer, hint: Option<HostId>, now: int, h: HostId)   // authenticating as host h

  const START := World(map[], map[], {}, [])

  // Tokens are fresh, and a signed token can only be one that was issued.
  predicate Enabled(w: World, hosts: set<HostId>, a: Action) {
    match a
    case Mint(h, token, _) => h in hosts && token !in w.minted
    case Revoke(h) => h in w.rows
    case Connect(bearer, hint, now, h) =>
      Accepts(w.rows, hosts, bearer, hint, now, h) && (bearer.Signed? ==> bearer.jwt in w.issued)
  }

  function Step(w: World, hosts: set<HostId>, a: Action): World {
    if !Enabled(w, hosts, a) then w
    else
      match a
      case Mint(h, token, now) =>
        w.(rows := w.rows[h := Minted(RowOf(w.rows, h), token, now)], minted := w.minted[token := h])
      case Revoke(h) => w.(rows := w.rows[h := Revoked(w.rows[h])])
      case Connect(bearer, _, now, h) =>
        w.(rows := w.rows[h := w.rows[h].(pending := None)],
           issued := w.issued + {Jwt(h, w.rows[h].version, now + JWT_TTL)},
           accepted := w.accepted + [bearer])
  }

  function Run(w: World, hosts: set<HostId>, actions: seq<Action>): World {
    if actions == [] then w
    else Step(Run(w, hosts, actions[..|actions| - 1]), hosts, actions[|actions| - 1])
  }

  ghost predicate TokensOk(w: World) {
    && (forall h :: h in w.rows && w.rows[h].pending.Some? ==>
          && w.rows[h].active
          && w.rows[h].pending.value.token in w.minted && w.minted[w.rows[h].pending.value.token] == h
          && Registration(w.rows[h].pending.value.token) !in w.accepted)
    && (forall b :: b in w.accepted && b.Registration? ==> b.token in w.minted)
    && (forall i, j :: 0 <= i < j < |w.accepted| && w.accepted[i].Registration? ==> w.accepted[i] != w.accepted[j])
  }

  ghost predicate JwtsOk(w: World) {
    forall j :: j in w.issued ==> j.host in w.rows && j.version <= w.rows[j.host].version
                                  && (w.rows[j.host].pending.Some? ==> j.version < w.rows[j.host].version)
  }

  lemma StepKeepsTokens(w: World, hosts: set<HostId>, a: Action)
    requires TokensOk(w)
    ensures TokensOk(Step(w, hosts, a))
  {
    if Enabled(w, hosts, a) && a.Connect? {
      var t := Step(w, hosts, a);
      assert forall i :: 0 <= i < |w.accepted| ==> t.accepted[i] == w.accepted[i] && w.accepted[i] in w.accepted;
    }
  }

  lemma StepKeepsJwts(w: World, hosts: set<HostId>, a: Action)
    requires TokensOk(w) && JwtsOk(w)
    ensures JwtsOk(Step(w, hosts, a))
  {
  }

  lemma {:induction false} RunKeepsInv(hosts: set<HostId>, actions: seq<Action>)
    ensures var w := Run(START, hosts, actions); TokensOk(w) && JwtsOk(w) && Distinct(w.rows)
  {
    if actions != [] {
      var before, a := actions[..|actions| - 1], actions[|actions| - 1];
      RunKeepsInv(hosts, before);
      StepKeepsTokens(Run(START, hosts, before), hosts, a);
      StepKeepsJwts(Run(START, hosts, before), hosts, a);
    }
  }

  /** A registration token authenticates at most once in any run, and only while it is the
      one pending for the host it was made for. */
  lemma TokenUsedOnce(hosts: set<HostId>, actions: seq<Action>, i: nat, j: nat, token: Token)
    requires var w := Run(START, hosts, actions);
             i < |w.accepted| && j < |w.accepted| && w.accepted[i] == w.accepted[j] == Registration(token)
    ensures i == j
  {
    RunKeepsInv(hosts, actions);
  }

  lemma TokenBelongsToHost(hosts: set<HostId>, actions: seq<Action>, token: Token, hint: Option<HostId>, now: int,
                           h: HostId)
    requires Accepts(Run(START, hosts, actions).rows, hosts, Registration(token), hint, now, h)
    ensures var w := Run(START, hosts, actions); token in w.minted && w.minted[token] == h && w.rows[h].active
  {
    RunKeepsInv(hosts, actions);
  }

  /** While a token is pending for a host its agent is active, and none of the signed tokens
      ever issued for it is accepted, at any time and whatever host is hinted. */
  lemma PendingBlocksJwts(hosts: set<HostId>, actions: seq<Action>, h: HostId)
    requires var w := Run(START, hosts, actions); h in w.rows && w.rows[h].pending.Some?
    ensures var w := Run(START, hosts, actions);
            w.rows[h].active &&
            forall j, hint, now, g :: j in w.issued && j.host == h ==> !Accepts(w.rows, hosts, Signed(j), hint, now, g)
  {
    RunKeepsInv(hosts, actions);
  }

  /** Rows never disappear, versions never go down, history is only added to. */
  ghost predicate Later(w: World, t: World) {
    && (forall h :: h in w.rows ==> h in t.rows && w.rows[h].version <= t.rows[h].version)
    && w.issued <= t.issued && w.accepted <= t.accepted
  }

  lemma RunLast(w: World, hosts: set<HostId>, actions: seq<Action>, last: Action)
    ensures Run(w, hosts, actions + [last]) == Step(Run(w, hosts, actions), hosts, last)
  {
    assert (actions + [last])[..|actions|] == actions;
  }

  lemma {:induction false} VersionsNeverDecrease(hosts: set<HostId>, before: seq<Action>, more: seq<Action>)
    ensures Later(Run(START, hosts, before), Run(START, hosts, before + more))
  {
    if more == [] {
      assert before + more == before;
    } else {
      var shorter := before + more[..|more| - 1];
      VersionsNeverDecrease(hosts, before, more[..|more| - 1]);
      RunLast(START, hosts, shorter, more[|more| - 1]);
      assert before + more == shorter + [more[|more| - 1]];
    }
  }

  /** A signed token issued before a mint or a revocation for its host is never accepted
      again, however the run goes on. */
  lemma RetiredJwtNeverAccepted(hosts: set<HostId>, before: seq<Action>, a: Action, more: seq<Action>, j: Jwt,
                                hint: Option<HostId>, now: int, h: HostId)
    requires var w := Run(START, hosts, before);
             j in w.issued && Enabled(w, hosts, a) && (a.Mint? || a.Revoke?) && a.h == j.host
    ensures !Accepts(Run(START, hosts, before + [a] + more).rows, hosts, Signed(j), hint, now, h)
  {
    RunKeepsInv(hosts, before);
    RunLast(START, hosts, before, a);
    VersionsNeverDecrease(hosts, before + [a], more);
  }

  /** Mints and revocations of a host's agent that take effect in a run. */
  function Bumps(w: World, hosts: set<HostId>, actions: seq<Action>, h: HostId): nat {
    if actions == [] then 0
    else
      var last := actions[|actions| - 1];
      var before := Run(w, hosts, actions[..|actions| - 1]);
      Bumps(w, hosts, actions[..|actions| - 1], h)
      + (if Enabled(before, hosts, last) && (last.Mint? || last.Revoke?) && last.h == h then 1 else 0)
  }

  lemma {:induction false} VersionCountsBumps(w: World, hosts: set<HostId>, actions: seq<Action>, h: HostId)
    requires h in w.rows
    ensures var t := Run(w, hosts, actions);
            && h in t.rows && t.rows[h].version == w.rows[h].version + Bumps(w, hosts, actions, h)
            && (Bumps(w, hosts, actions, h) == 0 ==> t.rows[h].active == w.rows[h].active)
  {
    if actions != [] {
      VersionCountsBumps(w, hosts, actions[..|actions| - 1], h);
    }
  }

  /** From the moment it is issued, a signed token is accepted exactly until it expires or
      the agent of its host is minted for or revoked, whatever else happens. */
  lemma IssuedJwtAcceptedIff(hosts: set<HostId>, before: seq<Action>, c: Action, more: seq<Action>,
                             hint: Option<HostId>, now: int)
    requires c.Connect? && Enabled(Run(START, hosts, before), hosts, c)
    ensures var w := Step(Run(START, hosts, before), hosts, c);
            var j := Jwt(c.h, Run(START, hosts, before).rows[c.h].version, c.now + 31536000);
            && j in w.issued
            && (Accepts(Run(w, hosts, more).rows, hosts, Signed(j), hint, now, c.h)
                <==> now < j.expires && Bumps(w, hosts, more, c.h) == 0)
  {
    RunKeepsInv(hosts, before);
    VersionCountsBumps(Step(Run(START, hosts, before), hosts, c), hosts, more, c.h);
  }

  // ---- Registration tokens from their mint on ----

  /** Mints, revocations and connects of a host's agent that take effect in a run. */
  function Touches(w: World, hosts: set<HostId>, actions: seq<Action>, h: HostId): nat {
    if actions == [] then 0
    else
      var last := actions[|actions| - 1];
      var before := Run(w, hosts, actions[..|actions| - 1]);
      Touches(w, hosts, actions[..|actions| - 1], h) + (if Enabled(before, hosts, last) && last.h == h then 1 else 0)
  }

  // The token is pending for no host but `h`, and for `h` only in an untouched row.
  ghost predicate OnlyFor(w: World, token: Token, h: HostId, row: Option<Agent>) {
    && token in w.minted && w.minted[token] == h
    && (forall g :: g in w.rows && g != h && w.rows[g].pending.Some? ==> w.rows[g].pending.value.token != token)
    && (if row.Some? then h in w.rows && w.rows[h] == row.value
        else h in w.rows && (w.rows[h].pending.Some? ==> w.rows[h].pending.value.token != token))
  }

  lemma StepKeepsOnly(w: World, hosts: set<HostId>, a: Action, token: Token, h: HostId, row: Option<Agent>)
    requires OnlyFor(w, token, h, row)
    ensures OnlyFor(Step(w, hosts, a), token, h, if Enabled(w, hosts, a) && a.h == h then None else row)
  {
  }

  lemma {:induction false} RunKeepsOnly(w: World, hosts: set<HostId>, actions: seq<Action>, token: Token, h: HostId,
                                        row: Option<Agent>)
    requires OnlyFor(w, token, h, row)
    ensures OnlyFor(Run(w, hosts, actions), token, h, if Touches(w, hosts, actions, h) == 0 then row else None)
  {
    if actions != [] {
      var front := actions[..|actions| - 1];
      RunKeepsOnly(w, hosts, front, token, h, row);
      StepKeepsOnly(Run(w, hosts, front), hosts, actions[|actions| - 1], token, h,
                    if Touches(w, hosts, front, h) == 0 then row else None);
    }
  }

  lemma {:induction false} RunConcat(w: World, hosts: set<HostId>, first: seq<Action>, second: seq<Action>)
    ensures Run(w, hosts, first + second) == Run(Run(w, hosts, first), hosts, second)
  {
    if second == [] {
      assert first + second == first;
    } else {
      var front, last := second[..|second| - 1], second[|second| - 1];
      RunConcat(w, hosts, first, front);
      RunLast(w, hosts, first + front, last);
      assert first + second == first + front + [last];
    }
  }

  lemma RetiredIsNowhere(w: World, hosts: set<HostId>, a: Action, token: Token)
    requires TokensOk(w) && token in w.minted
    requires Enabled(w, hosts, a) && (a.Mint? || a.Revoke?) && a.h == w.minted[token]
    ensures OnlyFor(Step(w, hosts, a), token, a.h, None)
  {
  }

  /** A registration token is never accepted again once its host has been minted for anew or
      revoked, however the run goes on. */
  lemma RetiredTokenNeverAccepted(hosts: set<HostId>, before: seq<Action>, a: Action, more: seq<Action>, token: Token,
                                  hint: Option<HostId>, now: int, h: HostId)
    requires var w := Run(START, hosts, before);
             token in w.minted && Enabled(w, hosts, a) && (a.Mint? || a.Revoke?) && a.h == w.minted[token]
    ensures var t := Run(START, hosts, before + [a] + more);
            && token in t.minted && t.minted[token] == a.h
            && !(a.h in t.rows && t.rows[a.h].pending.Some? && t.rows[a.h].pending.value.token == token)
            && !Accepts(t.rows, hosts, Registration(token), hint, now, h)
  {
    var w := Run(START, hosts, before);
    RunKeepsInv(hosts, before);
    RetiredIsNowhere(w, hosts, a, token);
    RunLast(START, hosts, before, a);
    RunConcat(START, hosts, before + [a], more);
    RunKeepsOnly(Step(w, hosts, a), hosts, more, token, a.h, None);
  }

  /** From its mint on, a registration token authenticates exactly its own host, under that
      host's name or none, for an hour, until the agent is minted for, revoked or connected. */
  lemma MintedTokenAcceptedIff(hosts: set<HostId>, before: seq<Action>, m: Action, more: seq<Action>,
                               hint: Option<HostId>, now: int, g: HostId)
    requires m.Mint? && Enabled(Run(START, hosts, before), hosts, m)
    ensures var w := Step(Run(START, hosts, before), hosts, m);
            Accepts(Run(w, hosts, more).rows, hosts, Registration(m.token), hint, now, g)
            <==> g == m.h && (hint.None? || hint == Some(m.h)) && now <= m.now + 3600
                 && Touches(w, hosts, more, m.h) == 0
  {
    var w := Step(Run(START, hosts, before), hosts, m);
    RunKeepsInv(hosts, before);
    assert OnlyFor(w, m.token, m.h, Some(w.rows[m.h]));
    RunKeepsOnly(w, hosts, more, m.token, m.h, Some(w.rows[m.h]));
  }

  /** So a connect with it right after its mint goes through exactly within the hour, and
      never again. */
  lemma MintThenConnectIff(hosts: set<HostId>, before: seq<Action>, m: Action, hint: Option<HostId>, now: int,
                           later: Option<HostId>, after: int)
    requires m.Mint? && Enabled(Run(START, hosts, before), hosts, m)
    ensures var w, c := Step(Run(START, hosts, before), hosts, m), Connect(Registration(m.token), hint, now, m.h);
            && (Enabled(w, hosts, c) <==> (hint.None? || hint == Some(m.h)) && now <= m.now + 3600)
            && (Enabled(w, hosts, c) ==>
                  !Accepts(Step(w, hosts, c).rows, hosts, Registration(m.token), later, after, m.h))
  {
    var w, c := Step(Run(START, hosts, before), hosts, m), Connect(Registration(m.token), hint, now, m.h);
    MintedTokenAcceptedIff(hosts, before, m, [], hint, now, m.h);
    MintedTokenAcceptedIff(hosts, before, m, [c], later, after, m.h);
    assert [c][..0] == [];
  }

  /** Whether the last mint or revocation of a host's agent that took effect was a mint. */
  function LastWasMint(hosts: set<HostId>, actions: seq<Action>, h: HostId): bool {
    if actions == [] then false
    else
      var last, front := actions[|actions| - 1], actions[..|actions| - 1];
      if Enabled(Run(START, hosts, front), hosts, last) && !last.Connect? && last.h == h then last.Mint?
      else LastWasMint(hosts, front, h)
  }

  /** An agent is active exactly from a mint to the next revocation. */
  lemma {:induction false} ActiveIff(hosts: set<HostId>, actions: seq<Action>, h: HostId)
    ensures var w := Run(START, hosts, actions); LastWasMint(hosts, actions, h) <==> h in w.rows && w.rows[h].active
  {
    if actions != [] {
      ActiveIff(hosts, actions[..|actions| - 1], h);
    }
  }

  /** An inactive agent is let in by nothing but a token still pending for it, and only under
      its own name. */
  lemma InactiveIsClosed(rows: map<HostId, Agent>, hosts: set<HostId>, bearer: Bearer, hint: Option<HostId>, now: int,
                         h: HostId)
    requires h in rows && !rows[h].active && Accepts(rows, hosts, bearer, hint, now, h)
    ensures hint == Some(h) && rows[h].pending.Some? && bearer == Registration(rows[h].pending.value.token)
  {
  }

  /** Nothing but a token given out for a host authenticates as it. */
  lemma AcceptedWasGiven(hosts: set<HostId>, actions: seq<Action>, bearer: Bearer, hint: Option<HostId>, now: int,
                         h: HostId)
    requires var w := Run(START, hosts, actions);
             Accepts(w.rows, hosts, bearer, hint, now, h) && (bearer.Signed? ==> bearer.jwt in w.issued)
    ensures var w := Run(START, hosts, actions);
            && h in hosts && h in w.rows && w.rows[h].active
            && match bearer
               case Registration(token) => token in w.minted && w.minted[token] == h
               case Signed(j) => j in w.issued && j.host == h && j.version == w.rows[h].version && now < j.expires
               case Unverifiable => false
  {
    RunKeepsInv(hosts, actions);
  }
}
