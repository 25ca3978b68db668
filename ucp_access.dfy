/**
 * The result accumulators of migrator/UCPAccess.py. The paginated listing
 * utility calls a page handler once per page, in page order, with the
 * caller's result list and the page's entries; each handler appends to that
 * list in place. `get_users` keeps the users the UCP knows, in input order.
 */
module UCPAccess {

  /** An entry of the `accounts` listing: `account['name']`, `account['isOrg']`. */
  datatype Account = Account(name: string, isOrg: bool)

  /** An entry of a `teams` listing: `team['name']`. */
  datatype Team = Team(name: string)

  /** An entry of a `members` listing: `member['member']['name']`. */
  datatype MemberEntry = MemberEntry(member: Member)
  datatype Member = Member(name: string)

  /** A Python list of names that the handlers append to. */
  class NameList {
    var items: seq<string>

    constructor ()
      ensures items == []
    {
      items := [];
    }

    /** `list.append(name)`. */
    method Append(name: string)
      modifies this
      ensures items == old(items) + [name]
    {
      items := items + [name];
    }
  }

  /** What a handler appends for one page: each entry's contribution
      (`pick`), in page order. */
  function Collect<T>(page: seq<T>, pick: T -> seq<string>): seq<string> {
    if page == [] then [] else Collect(page[..|page| - 1], pick) + pick(page[|page| - 1])
  }

  /** All pages one after the other, as a single listing. */
  function Flatten<T>(pages: seq<seq<T>>): seq<T> {
    if pages == [] then [] else Flatten(pages[..|pages| - 1]) + pages[|pages| - 1]
  }

  function OrgPick(account: Account): seq<string> {
    if account.isOrg then [account.name] else []
  }

  function TeamPick(team: Team): seq<string> {
    [team.name]
  }

  function MemberPick(entry: MemberEntry): seq<string> {
    [entry.member.name]
  }

  /** The users of `users` the UCP knows, in input order. */
  function KnownUsers(users: seq<string>, userExists: string -> bool): seq<string> {
    if users == [] then []
    else
      var last := users[|users| - 1];
      KnownUsers(users[..|users| - 1], userExists) + (if userExists(last) then [last] else [])
  }

  class UCPAccess {
    /** The user list last handed to `get_users`. */
    var artifactoryUsers: seq<string>

    /** The part of `__init__` this model keeps: no users seen yet. */
    constructor ()
      ensures artifactoryUsers == []
    {
      artifactoryUsers := [];
    }

    /** `__get_organizations_page_handler`: append the name of every
        organization account of the page. */
    method OrganizationsPageHandler(result: NameList, pageResults: seq<Account>)
      modifies result
      ensures result.items == old(result.items) + Collect(pageResults, OrgPick)
    {
      var i := 0;
      while i < |pageResults|
        invariant 0 <= i <= |pageResults|
        invariant result.items == old(result.items) + Collect(pageResults[..i], OrgPick)
      {
        assert pageResults[..i + 1][..i] == pageResults[..i];
        var account := pageResults[i];
        if account.isOrg {
          result.Append(account.name);
        }
        i := i + 1;
      }
      assert pageResults[..i] == pageResults;
    }

    /** `__get_teams_page_handler`: append the name of every team of the
        page. */
    method TeamsPageHandler(result: NameList, pageResults: seq<Team>)
      modifies result
      ensures result.items == old(result.items) + Collect(pageResults, TeamPick)
    {
      var i := 0;
      while i < |pageResults|
        invariant 0 <= i <= |pageResults|
        invariant result.items == old(result.items) + Collect(pageResults[..i], TeamPick)
      {
        assert pageResults[..i + 1][..i] == pageResults[..i];
        result.Append(pageResults[i].name);
        i := i + 1;
      }
      assert pageResults[..i] == pageResults;
    }

    /** `__get_members_page_handler`: append the nested name of every member
        of the page. */
    method MembersPageHandler(result: NameList, pageResults: seq<MemberEntry>)
      modifies result
      ensures result.items == old(result.items) + Collect(pageResults, MemberPick)
    {
      var i := 0;
      while i < |pageResults|
        invariant 0 <= i <= |pageResults|
        invariant result.items == old(result.items) + Collect(pageResults[..i], MemberPick)
      {
        assert pageResults[..i + 1][..i] == pageResults[..i];
        result.Append(pageResults[i].member.name);
        i := i + 1;
      }
      assert pageResults[..i] == pageResults;
    }

    /** `get_users`: remember the given list, and return the users in it
        that `userExists` accepts. */
    method GetUsers(artifactoryUsers: seq<string>, userExists: string -> bool) returns (users: seq<string>)
      modifies this
      ensures this.artifactoryUsers == artifactoryUsers
      ensures users == KnownUsers(artifactoryUsers, userExists)
    {
      this.artifactoryUsers := artifactoryUsers;
      users := [];
      var i := 0;
      while i < |artifactoryUsers|
        invariant 0 <= i <= |artifactoryUsers|
        invariant users == KnownUsers(artifactoryUsers[..i], userExists)
      {
        assert artifactoryUsers[..i + 1][..i] == artifactoryUsers[..i];
        var user := artifactoryUsers[i];
        if userExists(user) {
          users := users + [user];
        }
        i := i + 1;
      }
      assert artifactoryUsers[..i] == artifactoryUsers;
    }
  }

  /** Handling two pages one after the other appends what handling their
      concatenation appends: a handler never touches what is already there. */
  lemma {:induction false} CollectAppend<T>(a: seq<T>, b: seq<T>, pick: T -> seq<string>)
    ensures Collect(a + b, pick) == Collect(a, pick) + Collect(b, pick)
    decreases |b|
  {
    if b == [] {
      assert a + b == a;
    } else {
      var b', last := b[..|b| - 1], b[|b| - 1];
      assert (a + b)[..|a + b| - 1] == a + b';
      assert (a + b)[|a + b| - 1] == last;
      CollectAppend(a, b', pick);
    }
  }

  /** Handling every page of a listing, in page order, gives what handling
      the whole listing at once would: the pagination is invisible in the
      result. */
  lemma {:induction false} CollectPages<T>(pages: seq<seq<T>>, pick: T -> seq<string>)
    ensures Collect(Flatten(pages), pick) == Flatten(seq(|pages|, i requires 0 <= i < |pages| => Collect(pages[i], pick)))
    decreases |pages|
  {
    if pages != [] {
      var init := pages[..|pages| - 1];
      CollectPages(init, pick);
      CollectAppend(Flatten(init), pages[|pages| - 1], pick);
      var outs := seq(|pages|, i requires 0 <= i < |pages| => Collect(pages[i], pick));
      assert outs[..|outs| - 1] == seq(|init|, i requires 0 <= i < |init| => Collect(init[i], pick));
    }
  }

  /** A name is collected from an accounts page exactly when some account
      of the page is an organization with that name. */
  lemma {:induction false} OrganizationsMember(page: seq<Account>, name: string)
    ensures name in Collect(page, OrgPick) <==> exists i :: 0 <= i < |page| && page[i] == Account(name, true)
    decreases |page|
  {
    if page != [] {
      var init := page[..|page| - 1];
      OrganizationsMember(init, name);
      if exists i :: 0 <= i < |init| && init[i] == Account(name, true) {
        var i :| 0 <= i < |init| && init[i] == Account(name, true);
        assert page[i] == init[i];
      }
      if exists i :: 0 <= i < |page| && page[i] == Account(name, true) {
        var i :| 0 <= i < |page| && page[i] == Account(name, true);
        if i < |init| { assert init[i] == page[i]; }
      }
    }
  }

  /** The teams handler appends exactly one name per team, the i-th name
      being the i-th team's. */
  lemma {:induction false} TeamsPointwise(page: seq<Team>)
    ensures |Collect(page, TeamPick)| == |page|
    ensures forall i :: 0 <= i < |page| ==> Collect(page, TeamPick)[i] == page[i].name
    decreases |page|
  {
    if page != [] {
      var init := page[..|page| - 1];
      TeamsPointwise(init);
      assert forall i :: 0 <= i < |init| ==> page[i] == init[i];
    }
  }

  /** The members handler appends exactly one name per member, the i-th name
      being the i-th member's nested name. */
  lemma {:induction false} MembersPointwise(page: seq<MemberEntry>)
    ensures |Collect(page, MemberPick)| == |page|
    ensures forall i :: 0 <= i < |page| ==> Collect(page, MemberPick)[i] == page[i].member.name
    decreases |page|
  {
    if page != [] {
      var init := page[..|page| - 1];
      MembersPointwise(init);
      assert forall i :: 0 <= i < |init| ==> page[i] == init[i];
    }
  }

  /** `get_users` keeps a user exactly when it is in the input and the UCP
      knows it. */
  lemma {:induction false} KnownUsersMember(users: seq<string>, userExists: string -> bool, u: string)
    ensures u in KnownUsers(users, userExists) <==> u in users && userExists(u)
    decreases |users|
  {
    if users != [] {
      var init := users[..|users| - 1];
      KnownUsersMember(init, userExists, u);
      assert users == init + [users[|users| - 1]];
    }
  }

  /** The users `get_users` returns are a subsequence of its input: `idx`
      gives, in increasing order, the input position of each, and every
      accepted position is there, so a repeated user is kept each time. */
  lemma {:induction false} KnownUsersSubsequence(users: seq<string>, userExists: string -> bool)
    returns (idx: seq<nat>)
    ensures |idx| == |KnownUsers(users, userExists)|
    ensures forall k :: 0 <= k < |idx| ==> idx[k] < |users| && users[idx[k]] == KnownUsers(users, userExists)[k]
    ensures forall k, l :: 0 <= k < l < |idx| ==> idx[k] < idx[l]
    ensures forall j :: 0 <= j < |users| && userExists(users[j]) ==> j in idx
    decreases |users|
  {
    if users == [] {
      idx := [];
    } else {
      var n := |users| - 1;
      var init := users[..n];
      var prev := KnownUsersSubsequence(init, userExists);
      var kept := KnownUsers(init, userExists);
      assert forall k :: 0 <= k < |prev| ==> users[prev[k]] == init[prev[k]];
      if userExists(users[n]) {
        idx := prev + [n];
        assert KnownUsers(users, userExists) == kept + [users[n]];
      } else {
        idx := prev;
        assert KnownUsers(users, userExists) == kept;
      }
      forall j | 0 <= j < |users| && userExists(users[j])
        ensures j in idx
      {
        if j < n {
          assert init[j] == users[j];
          assert j in prev;
        } else {
          assert idx[|idx| - 1] == n;
        }
      }
    }
  }
}
