/** The team page: the members listed under the five roles of the game, in
    a fixed order. Where the member list comes from is not modelled. */
module TeamsPage {
  import opened Common
  import opened Seqs

  /** A member as the page shows one. */
  datatype Member = Member(
    id: string,
    name: string,
    role: string,
    profilePicture: Option<string>,
    status: string,
    experience: string)

  /** The roles, in the order their groups are shown. */
  const Roles: seq<string> := ["Tank", "Marksman", "Mage", "Assassin", "Support"]

  function RoleOf(m: Member): string { m.role }

  /** `membersByRole`: each role with the members that have it. */
  function MembersByRole(members: seq<Member>): seq<Group<string, Member>> {
    Groups(members, RoleOf, Roles)
  }

  lemma RolesDistinct()
    ensures Distinct(Roles)
  {
  }

  /** Five groups, one per role, in the fixed order, and each holds exactly
      the members with that role. */
  lemma GroupsByRole(members: seq<Member>, i: nat)
    requires i < |Roles|
    ensures |MembersByRole(members)| == 5
    ensures MembersByRole(members)[i].heading == Roles[i]
    ensures forall m :: m in MembersByRole(members)[i].items <==> m in members && m.role == Roles[i]
  {
    GroupsAt(members, RoleOf, Roles, i);
    SelectKeyMembers(members, RoleOf, Roles[i]);
    var g := MembersByRole(members)[i];
    forall m | m in members && m.role == Roles[i] ensures m in g.items {
      var p :| 0 <= p < |members| && members[p] == m;
      assert RoleOf(members[p]) == Roles[i];
    }
  }

  /** Within a role the members keep the order of the list: the `n`-th
      member of the group is the one at the `n`-th of the increasing
      positions holding that role. */
  lemma RoleKeepsInputOrder(members: seq<Member>, i: nat) returns (idx: seq<nat>)
    requires i < |Roles|
    ensures var g := MembersByRole(members)[i];
            && |idx| == |g.items|
            && (forall n | 0 <= n < |idx| :: idx[n] < |members| && members[idx[n]] == g.items[n])
            && (forall n, k | 0 <= n < k < |idx| :: idx[n] < idx[k])
            && (forall q | 0 <= q < |members| && members[q].role == Roles[i] :: q in idx)
  {
    GroupsAt(members, RoleOf, Roles, i);
    idx := Positions(members, RoleOf, Roles[i]);
    PositionsPick(members, RoleOf, Roles[i]);
    PositionsIncrease(members, RoleOf, Roles[i]);
    forall q | 0 <= q < |members| && members[q].role == Roles[i] ensures q in idx {
      PositionsComplete(members, RoleOf, Roles[i], q);
    }
  }

  /** A member with a role outside the five is in no group; any other
      member is in exactly one, the group of their role. */
  lemma EachMemberPlacedOnce(members: seq<Member>, m: Member)
    requires m in members
    ensures m.role !in Roles ==> forall i | 0 <= i < |MembersByRole(members)| :: m !in MembersByRole(members)[i].items
    ensures m.role in Roles ==>
              forall i | 0 <= i < |MembersByRole(members)| ::
                m in MembersByRole(members)[i].items <==> Roles[i] == m.role
  {
    forall i | 0 <= i < |Roles| ensures m in MembersByRole(members)[i].items <==> Roles[i] == m.role {
      GroupsByRole(members, i);
    }
  }

  /** The counts under the headings (each group's length) add up to the
      members whose role is one of the five. */
  lemma CountsAddUp(members: seq<Member>)
    ensures SumOf(MembersByRole(members), GroupLength) == |Where(members, (m: Member) => m.role in Roles)|
  {
    GroupsTotal(members, RoleOf, Roles);
    GroupSizesWhere(members, RoleOf, Roles, (m: Member) => m.role in Roles);
  }
}
