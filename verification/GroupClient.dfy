/** The group client: names resolved to ids with a cache, against a server that works on ids. */
module GroupClient {
  import opened Wrappers
  import opened Protocol

  datatype GroupHit = GroupHit(id: string, name: string)

  // The server: stable, injective names, and membership between ids.
  class Server {
    const users: map<string, string>
    const groups: map<string, string>
    var members: set<(string, string)>

    constructor (users: map<string, string>, groups: map<string, string>)
      requires NamesFit(users) && NamesFit(groups)
      ensures Valid() && members == {} && this.users == users && this.groups == groups
    {
      this.users := users;
      this.groups := groups;
      members := {};
    }

    predicate Valid() {
      NamesFit(users) && NamesFit(groups)
    }

    // Membership by name.
    function Pairs(): set<(string, string)>
      reads this
    {
      set u, g | u in users && g in groups && (users[u], groups[g]) in members :: (u, g)
    }

    // `up` is whether the request succeeds.
    method FindUser(name: string, up: bool) returns (ids: Result<seq<string>>)
      ensures ids == if !up then Failure else Success(if name in users then [users[name]] else [])
    {
      if !up {
        return Failure;
      }
      ids := Success(if name in users then [users[name]] else []);
    }

    // A change may be refused, or applied with its answer lost.
    method Put(uid: string, gid: string, outcome: GroupOutcome) returns (ok: bool)
      modifies this
      ensures ok == (outcome == Done)
      ensures members == if outcome == Refused then old(members) else old(members) + {(uid, gid)}
    {
      if outcome != Refused {
        members := members + {(uid, gid)};
      }
      ok := outcome == Done;
    }

    method Delete(uid: string, gid: string, outcome: GroupOutcome) returns (ok: bool)
      modifies this
      ensures ok == (outcome == Done)
      ensures members == if outcome == Refused then old(members) else old(members) - {(uid, gid)}
    {
      if outcome != Refused {
        members := members - {(uid, gid)};
      }
      ok := outcome == Done;
    }
  }

  // Different names have different, non-empty ids.
  predicate NamesFit(names: map<string, string>) {
    && (forall n :: n in names ==> names[n] != "")
    && (forall n, m :: n in names && m in names && names[n] == names[m] ==> n == m)
  }

  // A search answer tells the truth, and lists the group searched for if there is one.
  predicate Answers(groups: map<string, string>, name: string, hits: seq<GroupHit>) {
    && (forall i :: 0 <= i < |hits| ==> hits[i].name in groups && groups[hits[i].name] == hits[i].id)
    && (name in groups ==> GroupHit(groups[name], name) in hits)
  }

  // A listing names exactly the groups of the user.
  ghost predicate Lists(server: Server, uid: string, names: seq<string>)
    reads server
  {
    forall g :: g in names <==> g in server.groups && (uid, server.groups[g]) in server.members
  }

  // A submap of the server's names.
  predicate Truthful(cache: map<string, string>, groups: map<string, string>) {
    forall n :: n in cache ==> n in groups && cache[n] == groups[n]
  }

  // Whether a group name resolves: from the cache, or by a search that succeeds and finds it.
  predicate Resolves(cache: map<string, string>, groups: map<string, string>, name: string, up: bool) {
    name in cache || (up && name in groups)
  }

  class Client {
    var groupIDs: map<string, string>

    constructor ()
      ensures groupIDs == map[]
    {
      groupIDs := map[];
    }

    method UserID(server: Server, name: string, up: bool) returns (id: Result<string>)
      requires server.Valid()
      ensures id == if up && name in server.users then Success(server.users[name]) else Failure
    {
      var found := server.FindUser(name, up);
      if found.Failure? {
        return Failure;
      }
      if |found.value| == 0 || found.value[0] == "" {
        return Failure;
      }
      id := Success(found.value[0]);
    }

    method GroupID(groups: map<string, string>, name: string, up: bool, hits: seq<GroupHit>) returns (id: Result<string>)
      requires NamesFit(groups) && Truthful(groupIDs, groups) && Answers(groups, name, hits)
      modifies this
      ensures Truthful(groupIDs, groups)
      ensures id == if Resolves(old(groupIDs), groups, name, up) then Success(groups[name]) else Failure
      ensures groupIDs == if id.Success? then old(groupIDs)[name := groups[name]] else old(groupIDs)
    {
      if name in groupIDs {
        assert groupIDs == groupIDs[name := groups[name]];
        return Success(groupIDs[name]);
      }
      if !up {
        return Failure;
      }
      for i := 0 to |hits|
        invariant groupIDs == old(groupIDs)
        invariant forall k :: 0 <= k < i ==> hits[k].name != name
      {
        if hits[i].name == name && hits[i].id != "" {
          groupIDs := groupIDs[name := hits[i].id];
          return Success(hits[i].id);
        }
      }
      id := Failure;
    }

    // Membership of the named pair, when the two requests succeed and the user exists.
    method InGroup(server: Server, username: string, groupName: string, upUser: bool, listed: Result<seq<string>>)
      returns (answer: Result<bool>)
      requires server.Valid()
      requires listed.Success? && username in server.users ==> Lists(server, server.users[username], listed.value)
      ensures answer == if upUser && username in server.users && listed.Success?
                        then Success((username, groupName) in server.Pairs()) else Failure
    {
      var uid := UserID(server, username, upUser);
      if uid.Failure? {
        return Failure;
      }
      if listed.Failure? {
        return Failure;
      }
      assert (username, groupName) in server.Pairs() <==> groupName in listed.value;
      for i := 0 to |listed.value|
        invariant forall k :: 0 <= k < i ==> listed.value[k] != groupName
      {
        if listed.value[i] == groupName {
          return Success(true);
        }
      }
      answer := Success(false);
    }

    // What the call comes to: nothing, when either name does not resolve, or else what the last request does.
    function Effect(server: Server, username: string, groupName: string, upUser: bool, upGroup: bool, outcome: GroupOutcome): GroupOutcome
      reads this
    {
      if upUser && username in server.users && Resolves(groupIDs, server.groups, groupName, upGroup) then outcome else Refused
    }

    // Insertion of the named pair. A failed call has changed nothing, except when the server applied
    // the change and its answer was lost.
    method AddToGroup(server: Server, username: string, groupName: string, upUser: bool, upGroup: bool, outcome: GroupOutcome, hits: seq<GroupHit>)
      returns (ok: bool)
      requires server.Valid() && Truthful(groupIDs, server.groups) && Answers(server.groups, groupName, hits)
      modifies this, server
      ensures Truthful(groupIDs, server.groups)
      ensures var effect := old(Effect(server, username, groupName, upUser, upGroup, outcome));
              && ok == (effect == Done)
              && server.Pairs() == if effect == Refused then old(server.Pairs()) else old(server.Pairs()) + {(username, groupName)}
    {
      var uid := UserID(server, username, upUser);
      if uid.Failure? {
        return false;
      }
      var gid := GroupID(server.groups, groupName, upGroup, hits);
      if gid.Failure? {
        return false;
      }
      ok := server.Put(uid.value, gid.value, outcome);
    }

    // Deletion of the named pair, with the same exception.
    method RemoveFromGroup(server: Server, username: string, groupName: string, upUser: bool, upGroup: bool, outcome: GroupOutcome, hits: seq<GroupHit>)
      returns (ok: bool)
      requires server.Valid() && Truthful(groupIDs, server.groups) && Answers(server.groups, groupName, hits)
      modifies this, server
      ensures Truthful(groupIDs, server.groups)
      ensures var effect := old(Effect(server, username, groupName, upUser, upGroup, outcome));
              && ok == (effect == Done)
              && server.Pairs() == if effect == Refused then old(server.Pairs()) else old(server.Pairs()) - {(username, groupName)}
    {
      var uid := UserID(server, username, upUser);
      if uid.Failure? {
        return false;
      }
      var gid := GroupID(server.groups, groupName, upGroup, hits);
      if gid.Failure? {
        return false;
      }
      ok := server.Delete(uid.value, gid.value, outcome);
    }
  }

  // ----- the group the service works on -----

  function MembersOf(pairs: set<(string, string)>, groupName: string): set<string> {
    set p | p in pairs && p.1 == groupName :: p.0
  }

  // Inserting and deleting a pair are, for the named group, what the service's handlers count on, and
  // leave every other group alone.
  lemma MembersFollowPairs(pairs: set<(string, string)>, username: string, groupName: string, outcome: GroupOutcome, g: string)
    ensures var added := if outcome == Refused then pairs else pairs + {(username, groupName)};
            MembersOf(added, g) == if g == groupName then AfterAdd(MembersOf(pairs, g), username, outcome) else MembersOf(pairs, g)
    ensures var removed := if outcome == Refused then pairs else pairs - {(username, groupName)};
            MembersOf(removed, g) == if g == groupName then AfterRemove(MembersOf(pairs, g), username, outcome) else MembersOf(pairs, g)
  {
    var added, removed := pairs + {(username, groupName)}, pairs - {(username, groupName)};
    forall u | u in MembersOf(pairs, g) && (u, g) != (username, groupName) ensures u in MembersOf(removed, g) {
      assert (u, g) in removed;
    }
    forall u | u in MembersOf(pairs, g) ensures u in MembersOf(added, g) {
      assert (u, g) in added;
    }
    if g == groupName {
      assert (username, g) in added;
    }
  }

  // ----- concurrent misses -----

  // A lookup that missed remembers the answer it got; its write may come after any others.
  datatype CacheStep = Missed(p: nat, name: string, hits: seq<GroupHit>) | Wrote(p: nat)

  datatype Caching = Caching(cache: map<string, string>, found: map<nat, GroupHit>)

  // The first hit with the name and an id.
  function FirstHit(name: string, hits: seq<GroupHit>): Option<GroupHit> {
    if hits == [] then None
    else if hits[0].name == name && hits[0].id != "" then Some(hits[0])
    else FirstHit(name, hits[1..])
  }

  function StepCache(c: Caching, step: CacheStep): Caching {
    match step
    case Missed(p, name, hits) =>
      var hit := FirstHit(name, hits);
      if hit.None? then c else c.(found := c.found[p := hit.value])
    case Wrote(p) =>
      if p in c.found then Caching(c.cache[c.found[p].name := c.found[p].id], map q | q in c.found && q != p :: c.found[q]) else c
  }

  function StepAll(c: Caching, steps: seq<CacheStep>): Caching
    decreases |steps|
  {
    if steps == [] then c else StepAll(StepCache(c, steps[0]), steps[1..])
  }

  predicate AllTruthful(c: Caching, groups: map<string, string>) {
    && Truthful(c.cache, groups)
    && forall p :: p in c.found ==> c.found[p].name in groups && groups[c.found[p].name] == c.found[p].id
  }

  lemma {:induction false} FirstHitIsTrue(groups: map<string, string>, name: string, hits: seq<GroupHit>)
    requires forall i :: 0 <= i < |hits| ==> hits[i].name in groups && groups[hits[i].name] == hits[i].id
    ensures FirstHit(name, hits).Some? ==> name in groups && FirstHit(name, hits).value == GroupHit(groups[name], name)
    ensures name in groups && groups[name] != "" && GroupHit(groups[name], name) in hits ==> FirstHit(name, hits).Some?
  {
    if hits != [] && !(hits[0].name == name && hits[0].id != "") {
      FirstHitIsTrue(groups, name, hits[1..]);
    }
  }

  // However lookups and writes interleave, the cache stays a submap of the server's names, and
  // what it holds it keeps.
  lemma {:induction false} CacheStaysTruthful(c: Caching, groups: map<string, string>, steps: seq<CacheStep>)
    requires AllTruthful(c, groups)
    requires forall i :: 0 <= i < |steps| && steps[i].Missed? ==> Answers(groups, steps[i].name, steps[i].hits)
    ensures AllTruthful(StepAll(c, steps), groups)
    ensures forall n :: n in c.cache ==> n in StepAll(c, steps).cache && StepAll(c, steps).cache[n] == c.cache[n]
    decreases |steps|
  {
    if steps != [] {
      if steps[0].Missed? {
        FirstHitIsTrue(groups, steps[0].name, steps[0].hits);
      }
      CacheStaysTruthful(StepCache(c, steps[0]), groups, steps[1..]);
    }
  }

  // A miss whose write follows, with nobody in between, is what the lookup does: the name is remembered
  // with the server's id if the server has it, and nothing is otherwise.
  lemma MissIsLookup(c: Caching, groups: map<string, string>, p: nat, name: string, hits: seq<GroupHit>)
    requires NamesFit(groups) && Answers(groups, name, hits) && p !in c.found
    ensures StepAll(c, [Missed(p, name, hits), Wrote(p)]).cache == if name in groups then c.cache[name := groups[name]] else c.cache
  {
    var steps := [Missed(p, name, hits), Wrote(p)];
    assert steps[1..] == [Wrote(p)] && steps[1..][1..] == [];
    FirstHitIsTrue(groups, name, hits);
    var c1 := StepCache(c, steps[0]);
    assert StepAll(c1, steps[1..]) == StepAll(StepCache(c1, Wrote(p)), []);
  }
}
