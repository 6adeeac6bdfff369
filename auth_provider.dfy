/**
 * The auth provider's state as it reacts to discrete events: the initial session,
 * each auth-state change notification, and unmounting. Each event is handled to
 * completion, including the role resolution it triggers.
 */
module AuthProvider {
  import opened Wrappers
  import opened RoleResolution

  /** What the provider hands to its consumers (its sign-in/up/out actions are not modelled). */
  datatype AuthValue = AuthValue(user: Option<User>, loading: bool, userRoles: seq<string>,
                                 isMantraCurator: bool)

  const OutsideProviderMessage := "useAuth must be used within an AuthProvider"

  /** `useAuth`: the provider's value, or an error when there is no enclosing provider. */
  function UseAuth(context: Option<AuthValue>): (r: Result<AuthValue, string>)
    ensures r.Failure? <==> context.None?
    ensures r.Failure? ==> r.error == OutsideProviderMessage
    ensures r.Success? ==> r.value == context.value
  {
    if context.None? then Failure(OutsideProviderMessage) else Success(context.value)
  }

  /** `session?.user ?? null`. */
  function SessionUser(session: Option<Session>): Option<User> {
    if session.Some? then session.value.user else None
  }

  class Provider {
    var user: Option<User>
    var userRoles: seq<string>
    var isMantraCurator: bool
    var loading: bool
    /** The effect's `mounted` flag. */
    var mounted: bool
    /** Whether the auth-state subscription is still registered. */
    var subscribed: bool

    /** The curator flag always agrees with the roles, and the subscription lives while mounted. */
    ghost predicate Valid()
      reads this
    {
      && isMantraCurator == (MantraCurator in userRoles)
      && subscribed == mounted
    }

    /** Mounting: the initial state, with the effect run and the subscription registered. */
    constructor ()
      ensures Valid()
      ensures user == None && userRoles == [] && !isMantraCurator && loading
      ensures mounted && subscribed
    {
      user := None;
      userRoles := [];
      isMantraCurator := false;
      loading := true;
      mounted := true;
      subscribed := true;
    }

    /**
     * A session arrives, from `getSession` or from an auth-state notification (the two
     * handlers are the same). While mounted, the user is taken from the session, the roles
     * are resolved, and `loading` becomes false. Once unmounted, nothing changes.
     */
    method OnSession(session: Option<Session>, primary: Response<Option<seq<UserRoleRow>>>,
                     allowlist: Response<Option<AdminRow>>)
      requires Valid()
      modifies this
      ensures Valid()
      ensures old(mounted) ==>
        && user == SessionUser(session)
        && Roles(userRoles, isMantraCurator) == FetchUserRoles(session, primary, allowlist)
        && !loading
      ensures !old(mounted) ==>
        && user == old(user) && userRoles == old(userRoles)
        && isMantraCurator == old(isMantraCurator) && loading == old(loading)
      ensures mounted == old(mounted) && subscribed == old(subscribed)
    {
      if !mounted {
        return;
      }
      user := SessionUser(session);
      var r := FetchUserRoles(session, primary, allowlist);
      userRoles, isMantraCurator := r.userRoles, r.isMantraCurator;
      if mounted {
        loading := false;
      }
    }

    /** Unmounting: the flag is cleared and the subscription is dropped; the state is kept. */
    method Unmount()
      requires Valid()
      modifies this
      ensures Valid()
      ensures !mounted && !subscribed
      ensures user == old(user) && userRoles == old(userRoles)
      ensures isMantraCurator == old(isMantraCurator) && loading == old(loading)
    {
      mounted := false;
      subscribed := false;
    }

    /** The context value consumers read. */
    function Value(): AuthValue
      reads this
    {
      AuthValue(user, loading, userRoles, isMantraCurator)
    }
  }

  /** A provider unmounted before any session arrives stays loading, whatever arrives later. */
  method UnmountBeforeSession(session: Option<Session>, primary: Response<Option<seq<UserRoleRow>>>,
                              allowlist: Response<Option<AdminRow>>)
    returns (v: AuthValue)
    ensures v == AuthValue(None, true, [], false)
  {
    var p := new Provider();
    p.Unmount();
    p.OnSession(session, primary, allowlist);
    v := p.Value();
  }

  /** A session without a user resolves, while mounted, to no roles and finished loading. */
  method SignedOutSession(primary: Response<Option<seq<UserRoleRow>>>,
                          allowlist: Response<Option<AdminRow>>)
    returns (v: AuthValue)
    ensures v == AuthValue(None, false, [], false)
  {
    var p := new Provider();
    p.OnSession(Some(Session(None)), primary, allowlist);
    v := p.Value();
  }
}
