/** The desired-state builders of waldur-grafana-sync/sync.py: the `User` and
    `Organisation` records (lines 36-54) built from the registry's listings
    (the `waldur_users`, `waldur_organizations`, `waldur_staff_users` and
    `waldur_support_users` properties, lines 86-166), and the title an
    organisation's folder and team carry (lines 175-178 and 295-298).
    The registry query itself (filters, pagination, field selection) is not
    modelled: the listings arrive as parameters. */
module Desired {
  import opened Wrappers

  datatype User = User(
    uuid: string, username: string, email: string, name: string,
    isStaff: bool, isSupport: bool)

  datatype Organisation = Organisation(
    uuid: string, name: string, division: string, abbreviation: string,
    country: string, isServiceProvider: bool, owners: seq<User>)

  /** One entry of a listed user's `customer_permissions`. */
  datatype Permission = Permission(
    customerUuid: string, customerName: string,
    customerDivisionName: Option<string>, role: string)

  /** One listed user, with the fields the user query selects. */
  datatype UserItem = UserItem(
    uuid: string, username: string, email: string, fullName: string,
    isStaff: bool, isSupport: bool, customerPermissions: seq<Permission>)

  /** One entry of a listed customer's `owners`. */
  datatype OwnerItem = OwnerItem(uuid: string, username: string, email: string, fullName: string)

  /** One listed customer, with the fields the customer query selects. */
  datatype CustomerItem = CustomerItem(
    uuid: string, name: string, divisionName: Option<string>, abbreviation: string,
    country: string, isServiceProvider: bool, owners: seq<OwnerItem>)

  // ---------------------------------------------------------------- users

  function OwnedOrganisation(p: Permission): Organisation {
    Organisation(p.customerUuid, p.customerName, p.customerDivisionName.GetOr(""), "", "", false, [])
  }

  /** The organisations a listed user owns (lines 144-152): one per permission
      whose role is 'owner', in order. */
  function OwnedOrganisations(ps: seq<Permission>): (r: seq<Organisation>)
    ensures |r| <= |ps|
    ensures r == [] <==> forall k :: 0 <= k < |ps| ==> ps[k].role != "owner"
    ensures forall o :: o in r <==> exists p :: p in ps && p.role == "owner" && o == OwnedOrganisation(p)
  {
    if ps == [] then []
    else
      var rest := OwnedOrganisations(ps[1..]);
      assert forall p :: p in ps <==> p == ps[0] || p in ps[1..];
      (if ps[0].role == "owner" then [OwnedOrganisation(ps[0])] else []) + rest
  }

  /** A listed user is kept when staff, support, or owner of an organisation
      (line 153). */
  predicate Qualifies(item: UserItem) {
    item.isStaff || item.isSupport || OwnedOrganisations(item.customerPermissions) != []
  }

  function ToUser(item: UserItem): User {
    User(item.uuid, item.username, item.email, item.fullName, item.isStaff, item.isSupport)
  }

  /** The desired users: the qualifying listed users, in listing order. */
  function DesiredUsers(items: seq<UserItem>): seq<User>
    decreases |items|
  {
    if items == [] then []
    else
      var last := items[|items| - 1];
      DesiredUsers(items[..|items| - 1]) + (if Qualifies(last) then [ToUser(last)] else [])
  }

  /** `waldur_users` (lines 126-166): the loop that appends every qualifying
      listed user. */
  method WaldurUsers(items: seq<UserItem>) returns (result: seq<User>)
    ensures result == DesiredUsers(items)
  {
    result := [];
    for i := 0 to |items|
      invariant result == DesiredUsers(items[..i])
    {
      assert items[..i + 1][..i] == items[..i];
      var item := items[i];
      var organizations := OwnedOrganisations(item.customerPermissions);
      if !item.isStaff && !item.isSupport && organizations == [] {
        continue;
      }
      result := result + [ToUser(item)];
    }
    assert items[..|items|] == items;
  }

  /** A listed user qualifies exactly when staff, support, or holding at least
      one customer permission with role 'owner'. */
  lemma QualifiesExactly(item: UserItem)
    ensures Qualifies(item) <==>
      item.isStaff || item.isSupport ||
      exists p :: p in item.customerPermissions && p.role == "owner"
  {
    var owned := OwnedOrganisations(item.customerPermissions);
    if owned != [] {
      assert owned[0] in owned;
    }
  }

  /** The desired users are exactly the qualifying listed users. */
  lemma {:induction false} DesiredUsersExactly(items: seq<UserItem>, u: User)
    ensures u in DesiredUsers(items) <==>
      exists i :: 0 <= i < |items| && u == ToUser(items[i]) && Qualifies(items[i])
    decreases |items|
  {
    if items != [] {
      var n := |items| - 1;
      var init, last := items[..n], items[n];
      var tail := if Qualifies(last) then [ToUser(last)] else [];
      assert DesiredUsers(items) == DesiredUsers(init) + tail;
      DesiredUsersExactly(init, u);
      assert forall i :: 0 <= i < n ==> items[i] == init[i];
    }
  }

  /** `waldur_staff_users` (lines 86-88): the staff among the desired users, in order. */
  function StaffUsers(users: seq<User>): (r: seq<User>)
    ensures |r| <= |users|
    ensures forall u :: u in r <==> u in users && u.isStaff
  {
    if users == [] then []
    else
      assert forall u :: u in users <==> u == users[0] || u in users[1..];
      (if users[0].isStaff then [users[0]] else []) + StaffUsers(users[1..])
  }

  /** `waldur_support_users` (lines 90-92): the support users among the desired
      users, in order. */
  function SupportUsers(users: seq<User>): (r: seq<User>)
    ensures |r| <= |users|
    ensures forall u :: u in r <==> u in users && u.isSupport
  {
    if users == [] then []
    else
      assert forall u :: u in users <==> u == users[0] || u in users[1..];
      (if users[0].isSupport then [users[0]] else []) + SupportUsers(users[1..])
  }

  // -------------------------------------------------------- organisations

  /** An owner as the organisation listing builds it (line 119): without the
      staff and support flags. */
  function OwnerUser(o: OwnerItem): User {
    User(o.uuid, o.username, o.email, o.fullName, false, false)
  }

  function ToOrganisation(c: CustomerItem): Organisation {
    Organisation(c.uuid, c.name, c.divisionName.GetOr(""), c.abbreviation, c.country,
      c.isServiceProvider, seq(|c.owners|, k requires 0 <= k < |c.owners| => OwnerUser(c.owners[k])))
  }

  predicate UniqueUuids(orgs: seq<Organisation>) {
    forall i, j :: 0 <= i < j < |orgs| ==> orgs[i].uuid != orgs[j].uuid
  }

  function Uuids(orgs: seq<Organisation>): set<string> {
    set o | o in orgs :: o.uuid
  }

  /** The position of `uuid` among the organisations, -1 when absent. */
  function IndexOfUuid(orgs: seq<Organisation>, uuid: string): (k: int)
    ensures -1 <= k < |orgs|
    ensures k >= 0 ==> orgs[k].uuid == uuid
    ensures k < 0 ==> forall j :: 0 <= j < |orgs| ==> orgs[j].uuid != uuid
    decreases |orgs|
  {
    if orgs == [] then -1
    else if orgs[|orgs| - 1].uuid == uuid then |orgs| - 1
    else IndexOfUuid(orgs[..|orgs| - 1], uuid)
  }

  /** `d[o.uuid] = o` on a Python dict kept as its items in insertion order:
      a present key keeps its place and takes the new value, a new key goes
      last. */
  function Put(orgs: seq<Organisation>, o: Organisation): (r: seq<Organisation>)
    requires UniqueUuids(orgs)
    ensures UniqueUuids(r)
    ensures Uuids(r) == Uuids(orgs) + {o.uuid}
    ensures o in r
    ensures forall x :: x in r ==> x == o || (x in orgs && x.uuid != o.uuid)
    ensures forall x :: x in orgs && x.uuid != o.uuid ==> x in r
  {
    var k := IndexOfUuid(orgs, o.uuid);
    if k >= 0 then
      var r := orgs[k := o];
      assert forall x :: x in r ==> x == o || exists j :: 0 <= j < |orgs| && j != k && x == orgs[j];
      forall j | 0 <= j < |orgs| && j != k ensures orgs[j] in r {
        assert r[j] == orgs[j];
      }
      assert forall u :: u in Uuids(r) <==> u in Uuids(orgs) + {o.uuid} by {
        forall u ensures u in Uuids(r) ==> u in Uuids(orgs) + {o.uuid} {
          if u in Uuids(r) {
            var x :| x in r && x.uuid == u;
            if x != o {
              var j :| 0 <= j < |orgs| && j != k && x == orgs[j];
            }
          }
        }
        forall u ensures u in Uuids(orgs) ==> u in Uuids(r) {
          if u in Uuids(orgs) {
            var x :| x in orgs && x.uuid == u;
            var j :| 0 <= j < |orgs| && orgs[j] == x;
            if j == k { assert r[k].uuid == u; } else { assert r[j] == x; }
          }
        }
      }
      r
    else orgs + [o]
  }

  /** `waldur_organizations` (lines 94-124): the dict comprehension keyed by
      UUID, as its items in insertion order. */
  function WaldurOrganizations(cs: seq<CustomerItem>): (r: seq<Organisation>)
    ensures UniqueUuids(r)
    ensures Uuids(r) == set c | c in cs :: c.uuid
    ensures forall o :: o in r ==> exists c :: c in cs && o == ToOrganisation(c)
    decreases |cs|
  {
    if cs == [] then []
    else
      var init := cs[..|cs| - 1];
      var rest := WaldurOrganizations(init);
      assert forall c :: c in cs <==> c in init || c == cs[|cs| - 1];
      Put(rest, ToOrganisation(cs[|cs| - 1]))
  }

  /** When a UUID is listed twice, the later record wins: the organisation
      kept for a UUID is built from the last customer listed with it. */
  lemma {:induction false} LastListedWins(cs: seq<CustomerItem>, j: int)
    requires 0 <= j < |cs|
    requires forall k :: j < k < |cs| ==> cs[k].uuid != cs[j].uuid
    ensures ToOrganisation(cs[j]) in WaldurOrganizations(cs)
    decreases |cs|
  {
    var n := |cs| - 1;
    if j < n {
      LastListedWins(cs[..n], j);
    }
  }

  /** `i` is the first position at which `uuid` is listed. */
  predicate IsFirstListed(cs: seq<CustomerItem>, uuid: string, i: int) {
    0 <= i < |cs| && cs[i].uuid == uuid && forall j :: 0 <= j < i ==> cs[j].uuid != uuid
  }

  /** Helper: a UUID listed before position n is first listed before n. */
  lemma FirstListedInPrefix(cs: seq<CustomerItem>, n: int, uuid: string, i: int)
    requires 0 <= n <= |cs| && IsFirstListed(cs, uuid, i)
    requires uuid in set c | c in cs[..n] :: c.uuid
    ensures i < n && IsFirstListed(cs[..n], uuid, i)
  {
    var c :| c in cs[..n] && c.uuid == uuid;
    var j :| 0 <= j < n && cs[..n][j] == c;
    assert cs[j].uuid == uuid;
  }

  /** Helper: `Put` keeps every UUID in its place and appends a new one. */
  lemma PutKeepsPlaces(orgs: seq<Organisation>, o: Organisation)
    requires UniqueUuids(orgs)
    ensures |Put(orgs, o)| == |orgs| || Put(orgs, o) == orgs + [o]
    ensures forall j :: 0 <= j < |orgs| ==> Put(orgs, o)[j].uuid == orgs[j].uuid
    ensures |Put(orgs, o)| > |orgs| ==> o.uuid !in Uuids(orgs)
  {
    var k := IndexOfUuid(orgs, o.uuid);
    if k < 0 {
      assert forall x :: x in orgs ==> x.uuid != o.uuid;
    }
  }

  /** The organisations come in the order in which their UUIDs were first
      listed (a dict keeps the position of a key's first insertion), so the
      reconcilers process them in that order. */
  lemma {:induction false} OrganisationsInListingOrder(cs: seq<CustomerItem>, k1: int, k2: int, i1: int, i2: int)
    requires 0 <= k1 < k2 < |WaldurOrganizations(cs)|
    requires IsFirstListed(cs, WaldurOrganizations(cs)[k1].uuid, i1)
    requires IsFirstListed(cs, WaldurOrganizations(cs)[k2].uuid, i2)
    ensures i1 < i2
    decreases |cs|
  {
    var n := |cs| - 1;
    var init := cs[..n];
    var rest := WaldurOrganizations(init);
    var r := WaldurOrganizations(cs);
    PutKeepsPlaces(rest, ToOrganisation(cs[n]));
    var u1, u2 := r[k1].uuid, r[k2].uuid;
    assert u1 == rest[k1].uuid && rest[k1] in rest;
    FirstListedInPrefix(cs, n, u1, i1);
    if k2 < |rest| {
      assert u2 == rest[k2].uuid && rest[k2] in rest;
      FirstListedInPrefix(cs, n, u2, i2);
      OrganisationsInListingOrder(init, k1, k2, i1, i2);
    } else {
      assert u2 == cs[n].uuid && u2 !in Uuids(rest);
    }
  }

  // ----------------------------------------------------------------- title

  /** The expected folder title, which is also the name of the organisation's
      team: "name (abbreviation)", or the bare name without an abbreviation. */
  function Title(o: Organisation): string {
    if o.abbreviation != "" then o.name + " (" + o.abbreviation + ")" else o.name
  }

  /** The title of the worked example: "Acme" with abbreviation "ACM". */
  lemma TitleExample(o: Organisation)
    requires o.name == "Acme" && o.abbreviation == "ACM"
    ensures Title(o) == "Acme (ACM)"
  {
  }

  /** Two different organisations can share a title: a name that already
      looks like "name (abbreviation)" and no abbreviation. This is why the
      folder sync has to skip colliding titles. */
  lemma TitlesCanCollide(o1: Organisation, o2: Organisation)
    requires o1.name == "Acme" && o1.abbreviation == "ACM"
    requires o2.name == "Acme (ACM)" && o2.abbreviation == ""
    ensures o1.name != o2.name && Title(o1) == Title(o2)
  {
  }

  /** With abbreviations on both sides that contain no '(', the title
      determines name and abbreviation, so such organisations collide only
      when both agree. */
  lemma {:induction false} TitleDeterminesParts(o1: Organisation, o2: Organisation)
    requires o1.abbreviation != "" && o2.abbreviation != ""
    requires '(' !in o1.abbreviation && '(' !in o2.abbreviation
    requires Title(o1) == Title(o2)
    ensures o1.name == o2.name && o1.abbreviation == o2.abbreviation
  {
    if |o1.abbreviation| < |o2.abbreviation| {
      ParenInLonger(o1, o2);
      assert false;
    } else if |o2.abbreviation| < |o1.abbreviation| {
      ParenInLonger(o2, o1);
      assert false;
    }
    var s := Title(o1);
    var a1, a2 := o1.abbreviation, o2.abbreviation;
    assert s == o1.name + " (" + a1 + ")" == o2.name + " (" + a2 + ")";
    assert |o1.name| == |o2.name|;
    assert o1.name == s[..|o1.name|] == o2.name;
    assert a1 == s[|s| - 1 - |a1|..|s| - 1] == a2;
  }

  /** Helper: when two titles agree, the '(' before the shorter abbreviation
      falls inside the longer one. */
  lemma {:induction false} ParenInLonger(o1: Organisation, o2: Organisation)
    requires o1.abbreviation != "" && o2.abbreviation != ""
    requires Title(o1) == Title(o2)
    requires |o1.abbreviation| < |o2.abbreviation|
    ensures '(' in o2.abbreviation
  {
    var s := Title(o1);
    var a1, a2 := o1.abbreviation, o2.abbreviation;
    var i := |s| - |a1| - 2;
    assert s == o1.name + " (" + a1 + ")";
    assert s[i] == '(';
    assert s == o2.name + " (" + a2 + ")";
    var off := |o2.name| + 2;
    assert s[i] == a2[i - off];
  }
}
