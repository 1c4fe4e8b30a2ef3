/**
  Who may receive an outbox row: the in-process filter `_Subscriber.accepts`
  and the narrowing clause that the reconnect backfill sends to Postgres.
 */
module Audience {
  import opened Wrappers

  datatype Json =
    | Null
    | Bool(flag: bool)
    | Number(digits: string)
    | Text(text: string)
    | List(items: seq<Json>)
    | Dict(fields: seq<(string, Json)>)

  /** One row of `public.sse_events`, as PostgREST hands it over. */
  datatype Row = Row(
    id: nat,
    community: string,
    topic: string,
    payload: Json,
    audience: Option<string>,
    roles: Option<seq<string>>,
    recipient: Option<string>)

  /** The membership a connection was opened for. */
  datatype Identity = Identity(community: string, membership: string, role: string)

  const COMMUNITY := "community"
  const ROLE := "role"
  const MEMBER := "member"

  function Lower(s: string): (r: string)
    ensures |r| == |s|
    ensures forall i :: 0 <= i < |s| && !('A' <= s[i] <= 'Z') ==> r[i] == s[i]
  {
    seq(|s|, i requires 0 <= i < |s| => if 'A' <= s[i] <= 'Z' then s[i] + 32 as char else s[i])
  }

  predicate LowerCase(s: string) {
    Lower(s) == s
  }

  /** `^[a-z_]{1,32}$` */
  predicate IsRoleWord(s: string) {
    1 <= |s| <= 32 && forall i :: 0 <= i < |s| ==> 'a' <= s[i] <= 'z' || s[i] == '_'
  }

  /** `^[0-9a-fA-F-]{36}$` */
  predicate IsUuidText(s: string) {
    && |s| == 36
    && forall i :: 0 <= i < |s| ==>
         '0' <= s[i] <= '9' || 'a' <= s[i] <= 'f' || 'A' <= s[i] <= 'F' || s[i] == '-'
  }

  /** `row.get("audience") or "community"`: a missing or empty column is community-wide. */
  function AudienceOf(row: Row): string {
    if row.audience.None? || row.audience.value == "" then COMMUNITY else row.audience.value
  }

  predicate Accepts(who: Identity, row: Row) {
    var audience := AudienceOf(row);
    if audience == COMMUNITY then
      true
    else if audience == ROLE then
      row.roles.Some? && exists i :: 0 <= i < |row.roles.value| && Lower(row.roles.value[i]) == who.role
    else if audience == MEMBER then
      row.recipient == Some(who.membership)
    else
      false
  }

  /** The row is of the reader's community, and for everybody, for the reader's role, or for the reader alone. */
  ghost predicate Addressed(row: Row, who: Identity) {
    && row.community == who.community
    && (|| row.audience.None?
        || row.audience.value in ["", "community"]
        || (row.audience.value == "role" && row.roles.Some? && exists r :: r in row.roles.value && Lower(r) == who.role)
        || (row.audience.value == "member" && row.recipient == Some(who.membership)))
  }

  datatype Clause = AnyCommunity | RoleContains(role: string) | MemberIs(membership: string)

  /** The clauses `_audience_filter` joins with `or`. A value off the whitelist loses its clause. */
  function AudienceFilter(who: Identity): seq<Clause> {
    [AnyCommunity]
    + (if IsRoleWord(who.role) then [RoleContains(who.role)] else [])
    + (if IsUuidText(who.membership) then [MemberIs(who.membership)] else [])
  }

  /** Postgres' reading of one clause: `cs` is array containment, `eq` on a uuid ignores case. */
  predicate Matches(clause: Clause, row: Row) {
    match clause
    case AnyCommunity => row.audience == Some(COMMUNITY)
    case RoleContains(role) => row.audience == Some(ROLE) && row.roles.Some? && role in row.roles.value
    case MemberIs(id) =>
      row.audience == Some(MEMBER) && row.recipient.Some? && Lower(row.recipient.value) == Lower(id)
  }

  predicate Narrow(who: Identity, row: Row) {
    exists i :: 0 <= i < |AudienceFilter(who)| && Matches(AudienceFilter(who)[i], row)
  }

  /** `sse_events_audience_shape_check`, and Postgres prints a uuid in lower case. */
  predicate WellShaped(row: Row) {
    || (row.audience == Some(COMMUNITY) && row.roles.None? && row.recipient.None?)
    || (row.audience == Some(ROLE) && row.roles.Some? && |row.roles.value| > 0 && row.recipient.None?)
    || (row.audience == Some(MEMBER) && row.roles.None? && row.recipient.Some?
        && LowerCase(row.recipient.value))
  }

  /** Every listed role that folds to a role word is also listed folded. */
  predicate RolesFolded(row: Row) {
    row.roles.Some? ==>
      forall i :: 0 <= i < |row.roles.value| && IsRoleWord(Lower(row.roles.value[i])) ==>
        Lower(row.roles.value[i]) in row.roles.value
  }

  /** A role word and a uuid in the spelling Postgres gives them. */
  predicate Canonical(who: Identity) {
    IsRoleWord(who.role) && IsUuidText(who.membership) && LowerCase(who.membership)
  }

  lemma RoleWordIsLowerCase(s: string)
    requires IsRoleWord(s)
    ensures LowerCase(s)
  {
    assert forall i :: 0 <= i < |s| ==> Lower(s)[i] == s[i];
  }

  lemma WhitelistsExactly(role: string, membership: string)
    ensures IsRoleWord(role) <==> 1 <= |role| <= 32 && forall c :: c in role ==> 'a' <= c <= 'z' || c == '_'
    ensures IsUuidText(membership) <==>
              && |membership| == 36
              && forall c :: c in membership ==> '0' <= c <= '9' || 'a' <= c <= 'f' || 'A' <= c <= 'F' || c == '-'
  {
    assert forall i :: 0 <= i < |role| ==> role[i] in role;
    assert forall i :: 0 <= i < |membership| ==> membership[i] in membership;
  }

  /** And in terms of the columns. */
  lemma NarrowExactly(who: Identity, row: Row)
    ensures Narrow(who, row) <==>
              || row.audience == Some("community")
              || (&& 1 <= |who.role| <= 32 && (forall c :: c in who.role ==> 'a' <= c <= 'z' || c == '_')
                  && row.audience == Some("role") && row.roles.Some? && who.role in row.roles.value)
              || (&& |who.membership| == 36
                  && (forall c :: c in who.membership ==> '0' <= c <= '9' || 'a' <= c <= 'f' || 'A' <= c <= 'F' || c == '-')
                  && row.audience == Some("member") && row.recipient.Some?
                  && Lower(row.recipient.value) == Lower(who.membership))
  {
    NarrowMeaning(who, row);
    WhitelistsExactly(who.role, who.membership);
  }

  /** What the narrowing means, clause by clause. */
  lemma NarrowMeaning(who: Identity, row: Row)
    ensures Narrow(who, row) <==>
              || Matches(AnyCommunity, row)
              || (IsRoleWord(who.role) && Matches(RoleContains(who.role), row))
              || (IsUuidText(who.membership) && Matches(MemberIs(who.membership), row))
  {
    var clauses := AudienceFilter(who);
    if Matches(AnyCommunity, row) {
      assert clauses[0] == AnyCommunity;
    }
    if IsRoleWord(who.role) && Matches(RoleContains(who.role), row) {
      assert clauses[1] == RoleContains(who.role);
    }
    if IsUuidText(who.membership) && Matches(MemberIs(who.membership), row) {
      assert clauses[|clauses| - 1] == MemberIs(who.membership);
    }
  }

  /**
    Dropping a clause narrows: whatever the role and however malformed the
    identity, Postgres never hands a connection a row that `accepts` refuses.
   */
  lemma NarrowingNeverWidens(who: Identity, row: Row)
    requires WellShaped(row) && LowerCase(who.membership)
    requires Narrow(who, row)
    ensures Accepts(who, row)
  {
    NarrowMeaning(who, row);
    if IsRoleWord(who.role) && Matches(RoleContains(who.role), row) {
      RoleWordIsLowerCase(who.role);
      var i :| 0 <= i < |row.roles.value| && row.roles.value[i] == who.role;
      assert Lower(row.roles.value[i]) == who.role;
    }
  }

  lemma NarrowingExactFor(who: Identity, row: Row)
    requires WellShaped(row) && Canonical(who) && RolesFolded(row)
    ensures Narrow(who, row) <==> Accepts(who, row)
  {
    NarrowMeaning(who, row);
    if Narrow(who, row) {
      NarrowingNeverWidens(who, row);
    }
  }

  /**
    Narrowing in Postgres before the 100-row cap loses no row to any canonical
    membership exactly when the row lists its role words folded.
   */
  lemma NarrowingExact(row: Row)
    requires WellShaped(row)
    ensures (forall who: Identity | Canonical(who) :: Narrow(who, row) <==> Accepts(who, row))
            <==> RolesFolded(row)
  {
    if RolesFolded(row) {
      forall who: Identity | Canonical(who) ensures Narrow(who, row) <==> Accepts(who, row) {
        NarrowingExactFor(who, row);
      }
    } else {
      var i :| 0 <= i < |row.roles.value| && IsRoleWord(Lower(row.roles.value[i]))
               && Lower(row.roles.value[i]) !in row.roles.value;
      var who := Identity(row.community, seq(36, _ => '0'), Lower(row.roles.value[i]));
      assert Lower(who.membership) == who.membership;
      assert Canonical(who);
      assert Accepts(who, row);
      NarrowMeaning(who, row);
      assert !Narrow(who, row);
    }
  }

  /** The failing family is inhabited: a row addressed to `Admin` is accepted live and never replayed. */
  lemma CapitalisedRoleIsNotReplayed()
    ensures var row := Row(1, "c", "t", Null, Some(ROLE), Some(["Admin"]), None);
            var who := Identity("c", seq(36, _ => '0'), "admin");
            WellShaped(row) && Canonical(who) && Accepts(who, row) && !Narrow(who, row)
  {
    var row := Row(1, "c", "t", Null, Some(ROLE), Some(["Admin"]), None);
    var who := Identity("c", seq(36, _ => '0'), "admin");
    assert Lower("Admin") == "admin";
    assert Lower(who.membership) == who.membership;
    assert Lower(row.roles.value[0]) == who.role;
    NarrowMeaning(who, row);
    assert "admin" != "Admin";
    assert "admin" !in row.roles.value;
  }
}
