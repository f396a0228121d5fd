/** The read-only team overview (frontend/src/pages/Users.tsx): the search
    by email, the role filter and the four counters, over the page's user
    list (a constant in the page, a parameter here). */
module UsersPage {
  import opened Common
  import UsersManagement

  /** The roles are the same `'gerant' | 'vendeur'` union as on the
      management page. */
  type Role = UsersManagement.Role

  datatype Status = Active | Inactive

  datatype Member = Member(id: string, email: string, role: Role, created_at: string, last_login: Option<string>, status: Status)

  /** The value the role filter compares with. */
  function RoleCode(r: Role): string
  {
    match r
    case Gerant => "gerant"
    case Vendeur => "vendeur"
  }

  predicate MemberMatches(m: Member, searchTerm: string, filterRole: string)
  {
    IncludesIgnoringCase(m.email, searchTerm) && (filterRole == "all" || RoleCode(m.role) == filterRole)
  }

  /** `filteredUsers` */
  function FilteredMembers(members: seq<Member>, searchTerm: string, filterRole: string): seq<Member>
  {
    Filter(members, (m: Member) => MemberMatches(m, searchTerm, filterRole))
  }

  /** A member is listed exactly when its email contains the term, ignoring
      case, and the filter is "all" or its role; with "all" and an empty
      term everyone is listed, and a filter naming no role lists nobody. */
  lemma {:induction false} FilteredMembersIff(members: seq<Member>, searchTerm: string, filterRole: string, x: Member)
    ensures x in FilteredMembers(members, searchTerm, filterRole) <==>
      x in members && IncludesIgnoringCase(x.email, searchTerm) && (filterRole == "all" || RoleCode(x.role) == filterRole)
    ensures searchTerm == [] && filterRole == "all" ==> FilteredMembers(members, searchTerm, filterRole) == members
    ensures filterRole !in ["all", "gerant", "vendeur"] ==> FilteredMembers(members, searchTerm, filterRole) == []
  {
    if members != [] {
      FilteredMembersIff(members[1..], searchTerm, filterRole, x);
      assert members == [members[0]] + members[1..];
    }
    if searchTerm == [] && filterRole == "all" {
      forall m: Member ensures MemberMatches(m, searchTerm, filterRole) {
        IncludesEmpty(Lower(m.email));
      }
      FilterAll(members, (m: Member) => MemberMatches(m, searchTerm, filterRole));
    }
  }

  datatype Stats = Stats(total: nat, active: nat, gerants: nat, vendeurs: nat)

  /** `stats` */
  function ComputeStats(members: seq<Member>): Stats
  {
    Stats(|members|, Count(members, (m: Member) => m.status == Active),
          Count(members, (m: Member) => m.role == UsersManagement.Gerant),
          Count(members, (m: Member) => m.role == UsersManagement.Vendeur))
  }

  /** Managers and sellers together are all the members, and the active
      ones are at most all of them. */
  lemma {:induction false} StatsSpec(members: seq<Member>)
    ensures ComputeStats(members).gerants + ComputeStats(members).vendeurs == ComputeStats(members).total
    ensures ComputeStats(members).active <= ComputeStats(members).total
  {
    if members != [] {
      StatsSpec(members[1..]);
      CountCons(members, (m: Member) => m.status == Active);
      CountCons(members, (m: Member) => m.role == UsersManagement.Gerant);
      CountCons(members, (m: Member) => m.role == UsersManagement.Vendeur);
    }
  }
}
