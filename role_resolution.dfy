/**
 * How the auth context derives a user's roles from a session: the primary lookup through
 * the `user_roles` table joined with `roles`, then the `admin_users` allowlist, then the
 * default role. The remote lookups are not made here; their answers are arguments.
 */
module RoleResolution {
  import opened Wrappers

  /** The signed-in user, as far as role resolution reads it. */
  datatype User = User(id: string, email: Option<string>)

  /** A session; its `user` may be absent. */
  datatype Session = Session(user: Option<User>)

  /** The joined `roles` row of a role assignment; its `name` may be null. */
  datatype JoinedRole = JoinedRole(name: Option<string>)

  /** One row of `user_roles` selected as `roles(name)`; the joined role may be null. */
  datatype UserRoleRow = UserRoleRow(roles: Option<JoinedRole>)

  /** The `role` column of the matching `admin_users` row. */
  datatype AdminRow = AdminRow(role: Option<string>)

  /**
   * What an awaited query yields: a `{ data, error }` pair, or an exception thrown
   * before a pair is produced.
   */
  datatype Response<T> = Response(data: T, error: Option<string>) | Thrown(reason: string)

  /** The provider's role state. */
  datatype Roles = Roles(userRoles: seq<string>, isMantraCurator: bool)

  const MantraCurator := "mantra_curator"
  const DefaultRole := "user"

  /** The role names an allowlist row can grant. */
  predicate IsAdminRole(role: string) {
    role == "admin" || role == "super_admin"
  }

  /** The role, if any, a joined row contributes (`item.roles?.name`, kept when not null). */
  function RowRole(row: UserRoleRow): Option<string> {
    if row.roles.Some? then row.roles.value.name else None
  }

  /** The role names the rows carry, in row order, skipping rows with no joined role or a null name. */
  function RoleNames(rows: seq<UserRoleRow>): (names: seq<string>)
    ensures |names| <= |rows|
    ensures forall n :: n in names <==> exists i :: 0 <= i < |rows| && RowRole(rows[i]) == Some(n)
  {
    if rows == [] then []
    else
      var rest := RoleNames(rows[1..]);
      assert forall n :: (exists i :: 0 <= i < |rows[1..]| && RowRole(rows[1..][i]) == Some(n)) <==>
                         (exists i :: 1 <= i < |rows| && RowRole(rows[i]) == Some(n));
      match RowRole(rows[0])
      case Some(n) => [n] + rest
      case None => rest
  }

  /** The names of two runs of rows are the names of the first followed by those of the second. */
  lemma {:induction false} RoleNamesAppend(a: seq<UserRoleRow>, b: seq<UserRoleRow>)
    ensures RoleNames(a + b) == RoleNames(a) + RoleNames(b)
  {
    if a == [] {
      assert a + b == b;
    } else {
      assert (a + b)[0] == a[0];
      assert (a + b)[1..] == a[1..] + b;
      RoleNamesAppend(a[1..], b);
    }
  }

  /** Roles from the primary lookup's rows; a null `data` gives none. */
  function PrimaryRoles(data: Option<seq<UserRoleRow>>): seq<string> {
    if data.Some? then RoleNames(data.value) else []
  }

  /**
   * The fallback: only the allowlist answer's `data` is read, so an error it reports is
   * ignored; an 'admin' or 'super_admin' row gives exactly that role, and anything else,
   * including a thrown exception, gives the default role.
   */
  function FallbackRoles(allowlist: Response<Option<AdminRow>>): (roles: seq<string>)
    ensures |roles| == 1
    ensures roles[0] == DefaultRole || IsAdminRole(roles[0])
  {
    match allowlist
    case Thrown(_) => [DefaultRole]
    case Response(data, _) =>
      if data.Some? && data.value.role.Some? && IsAdminRole(data.value.role.value)
      then [data.value.role.value]
      else [DefaultRole]
  }

  /**
   * `fetchUserRoles(session)`. Without a signed-in user there are no roles. Otherwise the
   * primary lookup's names are used when it answers without an error; when it reports an
   * error or throws, the allowlist decides. The curator flag is always the membership
   * test of 'mantra_curator' in the resulting roles.
   */
  function FetchUserRoles(session: Option<Session>,
                          primary: Response<Option<seq<UserRoleRow>>>,
                          allowlist: Response<Option<AdminRow>>): (r: Roles)
    ensures r.isMantraCurator == (MantraCurator in r.userRoles)
    ensures (session.None? || session.value.user.None?) ==> r.userRoles == []
    ensures session.Some? && session.value.user.Some? && primary.Response? && primary.error.None? ==>
      r.userRoles == PrimaryRoles(primary.data)
    ensures session.Some? && session.value.user.Some? && !(primary.Response? && primary.error.None?) ==>
      |r.userRoles| == 1 && !r.isMantraCurator
  {
    if session.None? || session.value.user.None? then Roles([], false)
    else match primary
      case Response(data, None) =>
        var roles := PrimaryRoles(data);
        Roles(roles, MantraCurator in roles)
      case _ =>
        Roles(FallbackRoles(allowlist), false)
  }

  // ---------------------------------------------------------------------------
  // Properties

  /** A signed-in user whose primary lookup fails gets an allowlisted admin role exactly. */
  lemma FallbackGrantsAdminRole(session: Session, primary: Response<Option<seq<UserRoleRow>>>,
                                role: string, error: Option<string>)
    requires session.user.Some?
    requires primary.Thrown? || primary.error.Some?
    requires IsAdminRole(role)
    ensures FetchUserRoles(Some(session), primary, Response(Some(AdminRow(Some(role))), error))
            == Roles([role], false)
  {
  }

  /** Any other allowlist answer after a failed primary lookup gives the default role. */
  lemma FallbackDefaultsToUser(session: Session, primary: Response<Option<seq<UserRoleRow>>>,
                               allowlist: Response<Option<AdminRow>>)
    requires session.user.Some?
    requires primary.Thrown? || primary.error.Some?
    requires allowlist.Thrown? || allowlist.data.None? || allowlist.data.value.role.None?
             || !IsAdminRole(allowlist.data.value.role.value)
    ensures FetchUserRoles(Some(session), primary, allowlist) == Roles([DefaultRole], false)
  {
  }

  /** The allowlist's reported error never matters: only its `data` is read. */
  lemma AllowlistErrorIgnored(session: Option<Session>, primary: Response<Option<seq<UserRoleRow>>>,
                              data: Option<AdminRow>, e1: Option<string>, e2: Option<string>)
    ensures FetchUserRoles(session, primary, Response(data, e1))
            == FetchUserRoles(session, primary, Response(data, e2))
  {
  }

  /** The allowlist is consulted only when the primary lookup fails. */
  lemma AllowlistUnusedOnPrimarySuccess(session: Option<Session>, data: Option<seq<UserRoleRow>>,
                                        a1: Response<Option<AdminRow>>, a2: Response<Option<AdminRow>>)
    ensures FetchUserRoles(session, Response(data, None), a1) == FetchUserRoles(session, Response(data, None), a2)
  {
  }

  /**
   * A primary lookup that succeeds with no rows, or with `null` data, yields no roles at
   * all: the default role is reached only through a failed lookup.
   */
  lemma EmptyPrimaryGivesNoRoles(session: Session, allowlist: Response<Option<AdminRow>>)
    requires session.user.Some?
    ensures FetchUserRoles(Some(session), Response(Some([]), None), allowlist) == Roles([], false)
    ensures FetchUserRoles(Some(session), Response(None, None), allowlist) == Roles([], false)
  {
  }

  /** The roles of a successful primary lookup are its rows' non-null names, in row order. */
  lemma PrimaryRolesInRowOrder(session: Session, rows: seq<UserRoleRow>, name: string,
                               allowlist: Response<Option<AdminRow>>)
    requires session.user.Some?
    ensures var r := FetchUserRoles(Some(session), Response(Some(rows + [UserRoleRow(Some(JoinedRole(Some(name))))]), None), allowlist);
      r.userRoles == RoleNames(rows) + [name]
    ensures var r := FetchUserRoles(Some(session), Response(Some(rows + [UserRoleRow(None)]), None), allowlist);
      r.userRoles == RoleNames(rows)
  {
    RoleNamesAppend(rows, [UserRoleRow(Some(JoinedRole(Some(name))))]);
    RoleNamesAppend(rows, [UserRoleRow(None)]);
  }

  /** A joined role whose name is null contributes nothing to the roles either. */
  lemma PrimaryRolesSkipNullName(session: Session, rows: seq<UserRoleRow>,
                                 allowlist: Response<Option<AdminRow>>)
    requires session.user.Some?
    ensures var r := FetchUserRoles(Some(session), Response(Some(rows + [UserRoleRow(Some(JoinedRole(None)))]), None), allowlist);
      r.userRoles == RoleNames(rows)
  {
    RoleNamesAppend(rows, [UserRoleRow(Some(JoinedRole(None)))]);
  }

  /** A curator role among the rows of a successful primary lookup sets the curator flag. */
  lemma CuratorFromPrimary(session: Session, rows: seq<UserRoleRow>, i: nat,
                           allowlist: Response<Option<AdminRow>>)
    requires session.user.Some? && i < |rows|
    requires RowRole(rows[i]) == Some(MantraCurator)
    ensures FetchUserRoles(Some(session), Response(Some(rows), None), allowlist).isMantraCurator
  {
  }
}
