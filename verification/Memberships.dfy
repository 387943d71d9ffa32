/** The ownership check of a customer deletion: who still has access, read from every tenant's members. */
module Memberships {
  import opened Wrappers
  import Text

  datatype Member = Member(principal: string, user: string, role: string)

  /** `readable` is false when the tenant's member keys did not parse. */
  datatype Tenant = Tenant(name: string, members: seq<Member>, teams: seq<seq<Member>>, readable: bool)

  datatype Error = Unobserved | OtherAccess | NoOwner

  /** The customer being deleted. */
  datatype Customer = Customer(tenant: string, principal: string, login: string)

  predicate Names(m: Member, c: Customer) {
    m.principal == c.principal || (c.login != "" && Text.EqualFold(m.user, c.login))
  }

  function Flatten(teams: seq<seq<Member>>): seq<Member> {
    if teams == [] then [] else Flatten(teams[..|teams| - 1]) + teams[|teams| - 1]
  }

  function Everyone(t: Tenant): seq<Member> {
    t.members + Flatten(t.teams)
  }

  /** The one entry the check admits: the exclusive principal-keyed owner of the tenant itself. */
  predicate IsSoleOwner(t: Tenant, m: Member, c: Customer) {
    t.name == c.tenant && t.teams == [] && |t.members| == 1 && m.principal == c.principal && m.role == "owner"
  }

  ghost predicate Clear(t: Tenant, c: Customer, requireOwner: bool) {
    forall m | m in Everyone(t) && Names(m, c) :: requireOwner && IsSoleOwner(t, m, c)
  }

  ghost predicate Owned(t: Tenant, c: Customer) {
    exists m | m in Everyone(t) :: Names(m, c)
  }

  ghost predicate NoObjection(directory: seq<Tenant>, c: Customer, requireOwner: bool) {
    forall i | 0 <= i < |directory| :: directory[i].readable && Clear(directory[i], c, requireOwner)
  }

  /** The check passes. */
  ghost predicate Passes(directory: seq<Tenant>, c: Customer, requireOwner: bool) {
    && NoObjection(directory, c, requireOwner)
    && (requireOwner ==> exists i | 0 <= i < |directory| :: Owned(directory[i], c))
  }

  predicate TenantExists(directory: seq<Tenant>, name: string) {
    exists i | 0 <= i < |directory| :: directory[i].name == name
  }

  method CheckTenant(t: Tenant, c: Customer, requireOwner: bool) returns (clear: bool, found: bool)
    ensures clear <==> Clear(t, c, requireOwner)
    ensures clear ==> (found <==> Owned(t, c))
  {
    var all := t.members;
    for k := 0 to |t.teams|
      invariant all == t.members + Flatten(t.teams[..k])
    {
      assert t.teams[..k + 1][..k] == t.teams[..k];
      all := all + t.teams[k];
    }
    assert t.teams[..|t.teams|] == t.teams;
    found := false;
    for k := 0 to |all|
      invariant forall i | 0 <= i < k && Names(all[i], c) :: requireOwner && IsSoleOwner(t, all[i], c)
      invariant found <==> exists i | 0 <= i < k :: Names(all[i], c)
    {
      if Names(all[k], c) {
        if !requireOwner || !IsSoleOwner(t, all[k], c) {
          assert all[k] in Everyone(t);
          return false, found;
        }
        found := true;
      }
    }
    clear := true;
    if found {
      var i :| 0 <= i < |all| && Names(all[i], c);
      assert all[i] in Everyone(t);
    }
  }

  /** customerMemberships: it passes exactly when every tenant was readable and none but the admitted owner
      entry names the customer; an unreadable tenant is reported as unobserved unless an earlier tenant
      already objected. */
  method Check(directory: seq<Tenant>, c: Customer, requireOwner: bool) returns (r: Result<(), Error>)
    ensures r.Ok? <==> Passes(directory, c, requireOwner)
    ensures r == Err(Unobserved) <==> exists i | 0 <= i < |directory| ::
              !directory[i].readable && NoObjection(directory[..i], c, requireOwner)
    ensures r == Err(NoOwner) <==> NoObjection(directory, c, requireOwner) && !Passes(directory, c, requireOwner)
  {
    var found := false;
    for k := 0 to |directory|
      invariant NoObjection(directory[..k], c, requireOwner)
      invariant found <==> exists i | 0 <= i < k :: Owned(directory[i], c)
    {
      var t := directory[k];
      if !t.readable { return Err(Unobserved); }
      var clear, here := CheckTenant(t, c, requireOwner);
      if !clear {
        assert forall i | k < i < |directory| :: directory[..i][k] == t;
        return Err(OtherAccess);
      }
      assert forall i | 0 <= i < k :: directory[..k][i] == directory[i];
      found := found || here;
    }
    assert directory[..|directory|] == directory;
    if requireOwner && !found { return Err(NoOwner); }
    return Ok(());
  }

  /** The entry is the customer's: by principal id, or by a login that is known and folds to the same. */
  ghost predicate IsEntryOf(m: Member, c: Customer) {
    m.principal == c.principal || (|c.login| > 0 && Text.EqualFold(m.user, c.login))
  }

  ghost predicate HasEntry(t: Tenant, c: Customer) {
    || (exists k | 0 <= k < |t.members| :: IsEntryOf(t.members[k], c))
    || (exists j, k | 0 <= j < |t.teams| && 0 <= k < |t.teams[j]| :: IsEntryOf(t.teams[j][k], c))
  }

  lemma {:induction false} FlattenMembers(teams: seq<seq<Member>>, m: Member)
    ensures m in Flatten(teams) <==> exists j, k | 0 <= j < |teams| && 0 <= k < |teams[j]| :: teams[j][k] == m
  {
    if teams != [] {
      var n := |teams| - 1;
      FlattenMembers(teams[..n], m);
      assert forall j | 0 <= j < n :: teams[..n][j] == teams[j];
      if m in teams[n] {
        var k :| 0 <= k < |teams[n]| && teams[n][k] == m;
      }
    }
  }

  lemma EntryExactly(t: Tenant, c: Customer)
    ensures Owned(t, c) <==> HasEntry(t, c)
  {
    if Owned(t, c) {
      var m :| m in Everyone(t) && Names(m, c);
      if m in Flatten(t.teams) {
        FlattenMembers(t.teams, m);
        var j, k :| 0 <= j < |t.teams| && 0 <= k < |t.teams[j]| && t.teams[j][k] == m;
        assert IsEntryOf(t.teams[j][k], c);
      } else {
        assert m in t.members;
        var k :| 0 <= k < |t.members| && t.members[k] == m;
        assert IsEntryOf(t.members[k], c);
      }
    }
    if j, k :| 0 <= j < |t.teams| && 0 <= k < |t.teams[j]| && IsEntryOf(t.teams[j][k], c) {
      FlattenMembers(t.teams, t.teams[j][k]);
      assert t.teams[j][k] in Everyone(t);
    }
    assert forall k | 0 <= k < |t.members| :: t.members[k] in Everyone(t);
  }

  /** A check without an owner passes exactly when every tenant was readable and none has an entry of the customer, among
      its members or in a team. */
  lemma PassWithoutOwnerMeansNoAccess(directory: seq<Tenant>, c: Customer)
    ensures Passes(directory, c, false) <==>
              forall i | 0 <= i < |directory| :: directory[i].readable && !HasEntry(directory[i], c)
  {
    hide HasEntry;
    forall i | 0 <= i < |directory| ensures Clear(directory[i], c, false) <==> !HasEntry(directory[i], c) {
      EntryExactly(directory[i], c);
    }
  }

  /** The tenant is the customer's own, who is its one member, its owner, and in no team. */
  ghost predicate IsExclusive(t: Tenant, c: Customer) {
    && t.name == c.tenant && t.teams == [] && |t.members| == 1
    && t.members[0].principal == c.principal && t.members[0].role == "owner"
  }

  /** A check with an owner passes exactly when every tenant was readable, one is exclusively the customer's, and all
      others have no entry of the customer. */
  lemma PassWithOwnerMeansExclusive(directory: seq<Tenant>, c: Customer)
    ensures Passes(directory, c, true) <==>
              && (forall i | 0 <= i < |directory| :: directory[i].readable && (HasEntry(directory[i], c) ==> IsExclusive(directory[i], c)))
              && (exists i | 0 <= i < |directory| :: IsExclusive(directory[i], c))
  {
    hide HasEntry;
    hide IsExclusive;
    forall i | 0 <= i < |directory|
      ensures (Clear(directory[i], c, true) <==> (HasEntry(directory[i], c) ==> IsExclusive(directory[i], c)))
              && (Owned(directory[i], c) <==> HasEntry(directory[i], c)) && (IsExclusive(directory[i], c) ==> HasEntry(directory[i], c))
    {
      EntryExactly(directory[i], c);
      ClearExactly(directory[i], c);
    }
  }

  lemma ClearExactly(t: Tenant, c: Customer)
    ensures Clear(t, c, true) <==> (Owned(t, c) ==> IsExclusive(t, c))
    ensures IsExclusive(t, c) ==> Owned(t, c)
  {
    assert t.teams == [] ==> Everyone(t) == t.members;
    assert IsExclusive(t, c) ==> t.members[0] in Everyone(t);
  }
}
