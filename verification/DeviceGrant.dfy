/** The device authorization grant on the server. */
module DeviceGrant {
  /* A browser approves or denies the row, and the client polls it (RFC 8628, sections 3.2 to 3.5). */

  import opened Ledgers
  import opened Text

  type Id = nat

  const SECOND := 1_000_000
  const LIFETIME := 600 * SECOND
  const INITIAL_INTERVAL := 5
  const MAX_INTERVAL := 60

  datatype Status = Pending | Approved | Denied | Consumed

  datatype Grant = Grant(
    name: string,
    platform: string,
    status: Status,
    organization: Option<Id>,
    owner: Option<Id>,
    team: Option<Id>,
    interval: nat,
    lastPolledAt: Option<int>,
    expiresAt: int)

  datatype Team = Team(organization: Id, name: string)

  type Teams = map<Id, Team>

  datatype Installation = Installation(
    name: string,
    platform: string,
    organization: Id,
    owner: Id,
    team: Option<Id>,
    teamKey: Option<string>)

  datatype Reply =
    | Issued(installation: Installation)
    | AuthorizationPending | SlowDown
    | AccessDenied | ExpiredToken | InvalidGrant | ServerError

  /* ---- The transactions ---- */

  /** `authorize_device` */
  function Requested(name: string, platform: string, now: int): Grant {
    Grant(name, platform, Pending, None, None, None, INITIAL_INTERVAL, None, now + LIFETIME)
  }

  /** The browser can act on a row only while it is pending and not expired. */
  predicate Open(g: Grant, now: int) {
    g.status == Pending && now < g.expiresAt
  }

  predicate TeamOf(teams: Teams, organization: Id, team: Option<Id>) {
    team.Some? ==> team.value in teams && teams[team.value].organization == organization
  }

  predicate TooSoon(g: Grant, now: int) {
    g.lastPolledAt.Some? && now < g.lastPolledAt.value + g.interval * SECOND
  }

  function Slower(interval: nat): nat {
    Min(interval + 5, MAX_INTERVAL)
  }

  function TeamKey(teams: Teams, organization: Id, team: Option<Id>): Option<string> {
    if team.Some? && team.value in teams && teams[team.value].organization == organization
    then Some(teams[team.value].name) else None
  }

  /** One row of `device_enrollment_authorizations` */
  class Authorization {
    var grant: Grant

    constructor (name: string, platform: string, now: int)
      ensures grant == Requested(name, platform, now)
      ensures grant == Grant(name, platform, Pending, None, None, None, 5, None, now + 600_000_000)
    {
      grant := Requested(name, platform, now);
    }

    /** `approve_device` with the decision to approve */
    method Approve(now: int, organization: Id, user: Id, team: Option<Id>, teams: Teams) returns (ok: bool)
      modifies this
      ensures ok <==> Open(old(grant), now) && TeamOf(teams, organization, team)
      ensures grant == if ok then AfterApproval(old(grant), organization, user, team) else old(grant)
      ensures ok <==> && old(grant).status == Pending && now < old(grant).expiresAt
                      && (team.Some? ==> team.value in teams && teams[team.value].organization == organization)
      ensures grant == if ok then old(grant).(status := Approved, organization := Some(organization),
                                              owner := Some(user), team := team) else old(grant)
    {
      if grant.status != Pending || grant.expiresAt <= now {
        return false;
      }
      if team.Some? && (team.value !in teams || teams[team.value].organization != organization) {
        return false;
      }
      grant := grant.(status := Approved, organization := Some(organization), owner := Some(user), team := team);
      return true;
    }

    /** `approve_device` with the decision to deny */
    method Deny(now: int, organization: Id, user: Id) returns (ok: bool)
      modifies this
      ensures ok <==> Open(old(grant), now)
      ensures grant == if ok then AfterDenial(old(grant), organization, user) else old(grant)
      ensures ok <==> old(grant).status == Pending && now < old(grant).expiresAt
      ensures grant == if ok then old(grant).(status := Denied, organization := Some(organization),
                                              owner := Some(user), team := None) else old(grant)
    {
      if grant.status != Pending || grant.expiresAt <= now {
        return false;
      }
      grant := grant.(status := Denied, organization := Some(organization), owner := Some(user), team := None);
      return true;
    }

    /** `exchange_device_code` and `pending_response` */
    method Exchange(now: int, teams: Teams) returns (reply: Reply)
      modifies this
      ensures reply == Answer(old(grant), now, teams)
      ensures grant == AfterExchange(old(grant), now, teams)
      ensures old(grant).expiresAt <= now ==> reply == ExpiredToken && grant == old(grant)
      ensures now < old(grant).expiresAt ==>
                var g := old(grant);
                match g.status
                case Pending =>
                  if g.lastPolledAt.Some? && now < g.lastPolledAt.value + g.interval * 1_000_000 then
                    && reply == SlowDown
                    && grant == g.(interval := if g.interval < 55 then g.interval + 5 else 60,
                                   lastPolledAt := Some(now))
                  else reply == AuthorizationPending && grant == g.(lastPolledAt := Some(now))
                case Denied => reply == AccessDenied && grant == g
                case Consumed => reply == InvalidGrant && grant == g
                case Approved =>
                  if g.organization == None || g.owner == None then reply == ServerError && grant == g
                  else
                    && reply.Issued? && grant == g.(status := Consumed)
                    && reply.installation.name == g.name && reply.installation.platform == g.platform
                    && reply.installation.organization == g.organization.value
                    && reply.installation.owner == g.owner.value && reply.installation.team == g.team
                    && (var known := g.team.Some? && g.team.value in teams
                                     && teams[g.team.value].organization == g.organization.value;
                        reply.installation.teamKey == if known then Some(teams[g.team.value].name) else None)
    {
      if grant.expiresAt <= now {
        return ExpiredToken;
      }
      match grant.status {
        case Pending =>
          if TooSoon(grant, now) {
            grant := grant.(interval := Slower(grant.interval), lastPolledAt := Some(now));
            return SlowDown;
          }
          grant := grant.(lastPolledAt := Some(now));
          return AuthorizationPending;
        case Denied => return AccessDenied;
        case Consumed => return InvalidGrant;
        case Approved =>
      }
      if grant.organization == None || grant.owner == None {
        return ServerError;
      }
      var teamKey := TeamKey(teams, grant.organization.value, grant.team);
      var installation := Installation(grant.name, grant.platform, grant.organization.value, grant.owner.value,
                                       grant.team, teamKey);
      grant := grant.(status := Consumed);
      return Issued(installation);
    }
  }

  function AfterApproval(g: Grant, organization: Id, user: Id, team: Option<Id>): Grant {
    g.(status := Approved, organization := Some(organization), owner := Some(user), team := team)
  }

  function AfterDenial(g: Grant, organization: Id, user: Id): Grant {
    g.(status := Denied, organization := Some(organization), owner := Some(user), team := None)
  }

  function Answer(g: Grant, now: int, teams: Teams): Reply {
    if g.expiresAt <= now then ExpiredToken
    else
      match g.status
      case Pending => if TooSoon(g, now) then SlowDown else AuthorizationPending
      case Denied => AccessDenied
      case Consumed => InvalidGrant
      case Approved =>
        if g.organization == None || g.owner == None then ServerError
        else Issued(Installation(g.name, g.platform, g.organization.value, g.owner.value, g.team,
                                 TeamKey(teams, g.organization.value, g.team)))
  }

  function AfterExchange(g: Grant, now: int, teams: Teams): Grant {
    match Answer(g, now, teams)
    case SlowDown => g.(interval := Slower(g.interval), lastPolledAt := Some(now))
    case AuthorizationPending => g.(lastPolledAt := Some(now))
    case Issued(_) => g.(status := Consumed)
    case _ => g
  }

  /* ---- Runs ---- */

  /** What may happen around one device code, in any order and at any times.  Removing a team clears
      it from the row; removing an organization or a user, or the hourly cleanup, removes the row. */
  datatype Event =
    | Approve(at: int, organization: Id, user: Id, team: Option<Id>)
    | Deny(at: int, organization: Id, user: Id)
    | Poll(at: int)
    | AddTeam(id: Id, added: Team)
    | RemoveTeam(id: Id)
    | RemoveRow

  /** `issued` lists the installations created so far for this device code. */
  datatype World = World(grant: Option<Grant>, teams: Teams, issued: seq<Installation>)

  function Next(w: World, e: Event): World {
    match e
    case Approve(at, organization, user, team) =>
      if Approvable(w, e)
      then w.(grant := Some(AfterApproval(w.grant.value, organization, user, team))) else w
    case Deny(at, organization, user) =>
      if w.grant.Some? && Open(w.grant.value, at)
      then w.(grant := Some(AfterDenial(w.grant.value, organization, user))) else w
    case Poll(at) =>
      if w.grant == None then w
      else
        var reply := Answer(w.grant.value, at, w.teams);
        w.(grant := Some(AfterExchange(w.grant.value, at, w.teams)),
           issued := if reply.Issued? then w.issued + [reply.installation] else w.issued)
    case AddTeam(id, added) => if id in w.teams then w else w.(teams := w.teams[id := added])
    case RemoveTeam(id) =>
      var member := w.grant.Some? && w.grant.value.team == Some(id);
      w.(teams := w.teams - {id}, grant := if member then Some(w.grant.value.(team := None)) else w.grant)
    case RemoveRow => w.(grant := None)
  }

  function Run(start: World, events: seq<Event>): World {
    if events == [] then start else Next(Run(start, events[..|events| - 1]), events[|events| - 1])
  }

  ghost predicate Fresh(start: World) {
    && start.issued == []
    && exists name: string, platform: string, now: int :: start.grant == Some(Requested(name, platform, now))
  }

  lemma {:induction false} RunSnoc(start: World, events: seq<Event>, e: Event)
    ensures Run(start, events + [e]) == Next(Run(start, events), e)
  {
    assert (events + [e])[..|events|] == events;
  }

  predicate Approvable(w: World, e: Event) {
    e.Approve? && w.grant.Some? && Open(w.grant.value, e.at) && TeamOf(w.teams, e.organization, e.team)
  }

  /** Event `j` approved the device for this organization and owner, and `team` is what has become of
      the team of that approval: none if it was removed since, and that team otherwise. */
  predicate Bound(start: World, events: seq<Event>, j: nat, organization: Id, owner: Id, team: Option<Id>) {
    && j < |events| && events[j].Approve? && events[j].organization == organization && events[j].user == owner
    && Approvable(Run(start, events[..j]), events[j])
    && team == RemainingTeam(events, j)
  }

  function RemainingTeam(events: seq<Event>, j: nat): Option<Id>
    requires j < |events| && events[j].Approve?
  {
    if events[j].team.Some? && Removed(events, j, events[j].team.value) then None else events[j].team
  }

  predicate Removed(events: seq<Event>, j: nat, team: Id) {
    exists l :: j < l < |events| && events[l] == RemoveTeam(team)
  }

  /** Event `k` exchanged the code before it expired, after an approval that names what was issued. */
  ghost predicate Earned(start: World, events: seq<Event>, k: nat, expiresAt: int, x: Installation) {
    && k < |events| && events[k].Poll? && events[k].at < expiresAt
    && exists j: nat :: j < k && Bound(start, events[..k], j, x.organization, x.owner, x.team)
  }

  /** What is known of the row */
  ghost predicate GrantOk(start: World, events: seq<Event>, w: World, g: Grant) {
    && INITIAL_INTERVAL <= g.interval <= MAX_INTERVAL
    && start.grant.Some? && g.expiresAt == start.grant.value.expiresAt
    && g.name == start.grant.value.name && g.platform == start.grant.value.platform
    && (g.status != Consumed ==> w.issued == [])
    && (g.status == Approved ==>
          && g.organization.Some? && g.owner.Some? && TeamOf(w.teams, g.organization.value, g.team)
          && exists j :: Bound(start, events, j, g.organization.value, g.owner.value, g.team))
  }

  ghost predicate Inv(start: World, events: seq<Event>, w: World) {
    && start.grant.Some?
    && |w.issued| <= 1
    && (w.grant.Some? ==> GrantOk(start, events, w, w.grant.value))
    && (w.issued != [] ==>
          && w.issued[0].name == start.grant.value.name && w.issued[0].platform == start.grant.value.platform
          && (w.issued[0].team.Some? <==> w.issued[0].teamKey.Some?)
          && exists k :: Earned(start, events, k, start.grant.value.expiresAt, w.issued[0]))
  }

  /** The row's team after the event */
  function TeamAfter(team: Option<Id>, e: Event): Option<Id> {
    if team.Some? && e == RemoveTeam(team.value) then None else team
  }

  lemma {:induction false} RemainingSnoc(events: seq<Event>, e: Event, j: nat)
    requires j < |events| && events[j].Approve?
    ensures RemainingTeam(events + [e], j) == TeamAfter(RemainingTeam(events, j), e)
  {
    var longer := events + [e];
    assert longer[|events|] == e;
    if events[j].team.Some? {
      var team := events[j].team.value;
      if Removed(events, j, team) {
        var l :| j < l < |events| && events[l] == RemoveTeam(team);
        assert longer[l] == RemoveTeam(team);
      }
      if Removed(longer, j, team) && e != RemoveTeam(team) {
        var l :| j < l < |longer| && longer[l] == RemoveTeam(team);
        assert events[l] == RemoveTeam(team);
      }
    }
  }

  lemma {:induction false} BoundStays(start: World, events: seq<Event>, e: Event, j: nat, organization: Id, owner: Id,
                                      team: Option<Id>)
    requires Bound(start, events, j, organization, owner, team)
    ensures Bound(start, events + [e], j, organization, owner, TeamAfter(team, e))
  {
    assert (events + [e])[..j] == events[..j];
    RemainingSnoc(events, e, j);
  }

  lemma {:induction false} EarnedStays(start: World, events: seq<Event>, e: Event, k: nat, expiresAt: int,
                                       x: Installation)
    requires Earned(start, events, k, expiresAt, x)
    ensures Earned(start, events + [e], k, expiresAt, x)
  {
    assert (events + [e])[..k] == events[..k];
  }

  /** Whatever happens, as long as the row's fields other than team, interval and time of the last
      poll stay as they are */
  lemma {:induction false} GrantStays(start: World, events: seq<Event>, w: World, e: Event, w': World)
    requires Inv(start, events, w) && w.grant.Some? && w'.grant.Some? && w'.issued == w.issued
    requires var g, g' := w.grant.value, w'.grant.value;
             && g' == g.(interval := g'.interval, lastPolledAt := g'.lastPolledAt, team := g'.team)
             && INITIAL_INTERVAL <= g'.interval <= MAX_INTERVAL
             && g'.team == TeamAfter(g.team, e)
             && (g'.status == Approved ==> TeamOf(w'.teams, g'.organization.value, g'.team))
    ensures GrantOk(start, events + [e], w', w'.grant.value)
  {
    var g, g' := w.grant.value, w'.grant.value;
    if g.status == Approved {
      var j :| Bound(start, events, j, g.organization.value, g.owner.value, g.team);
      BoundStays(start, events, e, j, g.organization.value, g.owner.value, g.team);
      assert Bound(start, events + [e], j, g'.organization.value, g'.owner.value, g'.team);
    }
  }

  lemma {:induction false} IssuedStays(start: World, events: seq<Event>, w: World, e: Event, w': World)
    requires Inv(start, events, w) && w'.issued == w.issued
    requires w'.grant.Some? ==> GrantOk(start, events + [e], w', w'.grant.value)
    ensures Inv(start, events + [e], w')
  {
    if w.issued != [] {
      var k :| Earned(start, events, k, start.grant.value.expiresAt, w.issued[0]);
      EarnedStays(start, events, e, k, start.grant.value.expiresAt, w.issued[0]);
    }
  }

  lemma {:induction false} ApprovalKeeps(start: World, events: seq<Event>, e: Event)
    requires Inv(start, events, Run(start, events)) && e.Approve?
    ensures Inv(start, events + [e], Next(Run(start, events), e))
  {
    var w := Run(start, events);
    var w' := Next(w, e);
    if w' != w {
      assert (events + [e])[..|events|] == events;
      assert Bound(start, events + [e], |events|, e.organization, e.user, e.team);
      IssuedStays(start, events, w, e, w');
    } else {
      NothingHappens(start, events, e);
    }
  }

  lemma {:induction false} NothingHappens(start: World, events: seq<Event>, e: Event)
    requires Inv(start, events, Run(start, events)) && !e.RemoveTeam?
    ensures Inv(start, events + [e], Run(start, events))
  {
    var w := Run(start, events);
    if w.grant.Some? {
      GrantStays(start, events, w, e, w);
    }
    IssuedStays(start, events, w, e, w);
  }

  lemma {:induction false} PollKeeps(start: World, events: seq<Event>, e: Event)
    requires Inv(start, events, Run(start, events)) && e.Poll?
    ensures Inv(start, events + [e], Next(Run(start, events), e))
  {
    var w := Run(start, events);
    var w' := Next(w, e);
    if w.grant == None {
      NothingHappens(start, events, e);
    } else {
      var reply := Answer(w.grant.value, e.at, w.teams);
      if reply.Issued? {
        var g := w.grant.value;
        var j :| Bound(start, events, j, g.organization.value, g.owner.value, g.team);
        assert (events + [e])[..|events|] == events;
        assert Earned(start, events + [e], |events|, g.expiresAt, reply.installation);
      } else {
        GrantStays(start, events, w, e, w');
        IssuedStays(start, events, w, e, w');
      }
    }
  }

  lemma {:induction false} EventKeeps(start: World, events: seq<Event>, e: Event)
    requires Inv(start, events, Run(start, events))
    ensures Inv(start, events + [e], Next(Run(start, events), e))
  {
    var w := Run(start, events);
    var w' := Next(w, e);
    match e
    case Approve(_, _, _, _) => ApprovalKeeps(start, events, e);
    case Poll(_) => PollKeeps(start, events, e);
    case Deny(_, _, _) =>
      if w' != w { IssuedStays(start, events, w, e, w'); } else { NothingHappens(start, events, e); }
    case AddTeam(_, _) =>
      if w.grant.Some? { GrantStays(start, events, w, e, w'); }
      IssuedStays(start, events, w, e, w');
    case RemoveTeam(_) =>
      if w.grant.Some? { GrantStays(start, events, w, e, w'); }
      IssuedStays(start, events, w, e, w');
    case RemoveRow => IssuedStays(start, events, w, e, w');
  }

  lemma {:induction false} RunKeepsInv(start: World, events: seq<Event>)
    requires Fresh(start)
    ensures Inv(start, events, Run(start, events))
  {
    if events != [] {
      var front, e := events[..|events| - 1], events[|events| - 1];
      RunKeepsInv(start, front);
      EventKeeps(start, front, e);
      assert events == front + [e];
    }
  }

  /** In every run, at most one installation is issued per device code: by an exchange before the
      code expires, after an approval, with the organization and owner of that approval and with its
      team - or with none, exactly if that team was removed between approval and exchange. */
  lemma {:induction false} OneInstallationPerCode(start: World, events: seq<Event>)
    requires Fresh(start)
    ensures |Run(start, events).issued| <= 1
    ensures forall x | x in Run(start, events).issued ::
              exists k :: Earned(start, events, k, start.grant.value.expiresAt, x)
  {
    RunKeepsInv(start, events);
  }

  /* ---- A team that is removed in between ---- */

  /** The device is approved for a team, the team is removed, and the code is exchanged. */
  function TeamLost(now: int, organization: Id, user: Id, team: Id): seq<Event> {
    [Approve(now, organization, user, Some(team)), RemoveTeam(team), Poll(now)]
  }

  lemma {:induction false} RunThree(start: World, a: Event, b: Event, c: Event)
    ensures Run(start, [a, b, c]) == Next(Next(Next(start, a), b), c)
  {
    RunSnoc(start, [], a);
    RunSnoc(start, [] + [a], b);
    RunSnoc(start, [] + [a] + [b], c);
    assert [a, b, c] == [] + [a] + [b] + [c];
  }

  /** The installation is then issued without a team, although the approval named one. */
  lemma {:induction false} RemovedTeamIsLost(start: World, now: int, organization: Id, user: Id, team: Id)
    requires start.issued == [] && start.grant.Some? && Open(start.grant.value, now)
    requires TeamOf(start.teams, organization, Some(team))
    ensures var w := Run(start, TeamLost(now, organization, user, team));
            && w.grant.Some? && w.grant.value.status == Consumed && |w.issued| == 1
            && w.issued[0].organization == organization && w.issued[0].owner == user
            && w.issued[0].team == None && w.issued[0].teamKey == None
  {
    RunThree(start, Approve(now, organization, user, Some(team)), RemoveTeam(team), Poll(now));
  }

  predicate Final(w: World) {
    w.grant.Some? ==> w.grant.value.status == Denied || w.grant.value.status == Consumed
  }

  /** Denied and consumed are final: the row keeps its state until it is removed, and nothing more is
      issued. */
  lemma {:induction false} FinalStatesAbsorb(start: World, events: seq<Event>, later: seq<Event>)
    requires Final(Run(start, events))
    ensures var w, w' := Run(start, events), Run(start, events + later);
            && Final(w') && w'.issued == w.issued
            && (w'.grant.Some? ==> w.grant.Some? && w'.grant.value.status == w.grant.value.status)
  {
    if later == [] {
      assert events + later == events;
    } else {
      var front, e := later[..|later| - 1], later[|later| - 1];
      FinalStatesAbsorb(start, events, front);
      RunSnoc(start, events + front, e);
      assert events + later == (events + front) + [e];
    }
  }

  lemma {:induction false} IntervalStep(start: World, events: seq<Event>, e: Event)
    requires Fresh(start) && Next(Run(start, events), e).grant.Some?
    ensures Run(start, events).grant.Some?
    ensures Run(start, events).grant.value.interval <= Next(Run(start, events), e).grant.value.interval
  {
    RunKeepsInv(start, events);
  }

  lemma {:induction false} IntervalInRange(start: World, events: seq<Event>)
    requires Fresh(start) && Run(start, events).grant.Some?
    ensures INITIAL_INTERVAL <= Run(start, events).grant.value.interval <= MAX_INTERVAL
  {
    RunKeepsInv(start, events);
  }

  lemma {:induction false} IntervalRises(start: World, events: seq<Event>, later: seq<Event>)
    requires Fresh(start) && Run(start, events + later).grant.Some?
    ensures Run(start, events).grant.Some?
    ensures Run(start, events).grant.value.interval <= Run(start, events + later).grant.value.interval
  {
    if later == [] {
      assert events + later == events;
    } else {
      var front, e := later[..|later| - 1], later[|later| - 1];
      RunSnoc(start, events + front, e);
      assert events + later == (events + front) + [e];
      IntervalStep(start, events + front, e);
      IntervalRises(start, events, front);
    }
  }

  /** The poll interval stays between 5 and 60 seconds and never decreases. */
  lemma {:induction false} IntervalNeverDecreases(start: World, events: seq<Event>, later: seq<Event>)
    requires Fresh(start) && Run(start, events + later).grant.Some?
    ensures Run(start, events).grant.Some?
    ensures INITIAL_INTERVAL <= Run(start, events).grant.value.interval
         <= Run(start, events + later).grant.value.interval <= MAX_INTERVAL
  {
    IntervalRises(start, events, later);
    IntervalInRange(start, events);
    IntervalInRange(start, events + later);
  }
}
