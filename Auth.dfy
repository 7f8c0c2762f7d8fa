/** Authentication (restaurant/src/core/auth.js): PIN login against the
    `users` collection of the store, the session kept in session storage,
    the audit entries login and logout append, and the role checks the
    router relies on. */
module Auth {
  import opened Values
  import opened Events
  import opened Store

  /** The four staff roles that have a view of their own. */
  const KnownRoles: seq<string> := ["waiter", "kitchen", "cashier", "manager"]

  /** `roleDefaultRoute`: where each role lands; anything else lands on the
      login view. */
  function RoleDefaultRoute(role: Value): (route: string)
    ensures role == Str("waiter") ==> route == "waiter/tables"
    ensures role == Str("kitchen") ==> route == "kitchen"
    ensures role == Str("cashier") ==> route == "cashier"
    ensures role == Str("manager") ==> route == "manager/dashboard"
    ensures (forall r :: r in KnownRoles ==> role != Str(r)) ==> route == "login"
    ensures route == "login" <==> forall r :: r in KnownRoles ==> role != Str(r)
  {
    if role == Str("waiter") then "waiter/tables"
    else if role == Str("kitchen") then "kitchen"
    else if role == Str("cashier") then "cashier"
    else if role == Str("manager") then "manager/dashboard"
    else "login"
  }

  /** `isLoggedIn`: the current user, as read back, is truthy. */
  predicate IsLoggedIn(user: Value)
    ensures IsLoggedIn(user) ==> !Nullish(user)
    ensures user.Obj? ==> IsLoggedIn(user)
  {
    Truthy(user)
  }

  /** `hasRole(...roles)`: false without a user, otherwise whether the
      user's role is (strictly) equal to one of the names. */
  predicate HasRole(user: Value, roles: seq<string>)
    ensures HasRole(user, roles) <==>
      IsLoggedIn(user) && exists i :: 0 <= i < |roles| && Prop(user, "role") == Str(roles[i])
  {
    Truthy(user) && Prop(user, "role").Str? && Prop(user, "role").s in roles
  }

  /** `guard(roles)`: the view to redirect to, or `None` (`null`) when the
      current user may stay. `roles` is `None` for a route open to every
      signed-in user. */
  function Guard(user: Value, roles: Option<seq<string>>): (r: Option<string>)
    ensures !IsLoggedIn(user) ==> r == Some("login")
    ensures IsLoggedIn(user) && roles.Some? && !HasRole(user, roles.value) ==> r == Some(RoleDefaultRoute(Prop(user, "role")))
    ensures r.None? <==> IsLoggedIn(user) && (roles.None? || HasRole(user, roles.value))
  {
    if !IsLoggedIn(user) then Some("login")
    else if roles.Some? && !HasRole(user, roles.value) then Some(RoleDefaultRoute(Prop(user, "role")))
    else None
  }

  /** A signed-in user is never sent to the login view by the guard unless
      their role is not one of the known ones. */
  lemma GuardKeepsKnownRolesOffLogin(user: Value, roles: Option<seq<string>>, r: string)
    requires IsLoggedIn(user) && Prop(user, "role") == Str(r) && r in KnownRoles
    ensures Guard(user, roles) != Some("login")
  {
  }

  /** The callback `u => u.pin === pin && u.active`. */
  predicate PinMatches(u: Value, pin: string) {
    StrictEq(Prop(u, "pin"), Str(pin)) && Truthy(Prop(u, "active"))
  }

  /** `users.find(...)` in `login`: the first active user with the PIN, no
      user, or the exception (a non-array `users`, or a `null` element met
      first). */
  function ChosenUser(tree: Value, pin: string): (r: Result<Option<Value>>)
    ensures r.Err? ==> r.fault == TypeError
    ensures ArrayAt(tree, "users").Err? ==> r.Err?
    ensures r.Err? ==>
      || ArrayAt(tree, "users").Err?
      || var users := ArrayAt(tree, "users").value;
         exists j :: 0 <= j < |users| && Nullish(users[j])
           && forall k :: 0 <= k < j ==> !Nullish(users[k]) && !PinMatches(users[k], pin)
    ensures r.Ok? && r.value.Some? ==>
      && ArrayAt(tree, "users").Ok?
      && var users := ArrayAt(tree, "users").value;
         exists i :: 0 <= i < |users| && users[i] == r.value.value && PinMatches(users[i], pin)
           && forall j :: 0 <= j < i ==> !Nullish(users[j]) && !PinMatches(users[j], pin)
    ensures r == Ok(None) ==>
      && ArrayAt(tree, "users").Ok?
      && forall u :: u in ArrayAt(tree, "users").value ==> !Nullish(u) && !PinMatches(u, pin)
  {
    match ArrayAt(tree, "users")
    case Err(f) => Err(f)
    case Ok(users) =>
      match FindFirst(users, u => PinMatches(u, pin))
      case Err(f) => Err(f)
      case Ok(None) => Ok(None)
      case Ok(Some(i)) => Ok(Some(users[i]))
  }

  /** The session `{id, name, role}` copied from a user record. */
  function SessionOf(user: Value): (s: Value)
    ensures s.Obj? && s.fields.Keys == {"id", "name", "role"}
    ensures Prop(s, "id") == Prop(user, "id") && Prop(s, "name") == Prop(user, "name") && Prop(s, "role") == Prop(user, "role")
  {
    Obj(map["id" := Prop(user, "id"), "name" := Prop(user, "name"), "role" := Prop(user, "role")])
  }

  /** The audit entry `login` and `logout` push; `stamp` is
      `Date.now().toString(36)` and `iso` is `new Date().toISOString()`. */
  function AuditEntry(stamp: string, iso: string, user: Value, action: string, what: string): Value {
    Obj(map[
      "id" := Str(stamp),
      "userId" := Prop(user, "id"),
      "action" := Str(action),
      "details" := Str(JsString(Prop(user, "name")) + what),
      "timestamp" := Str(iso)])
  }

  /** The event `login` emits. */
  function LoginEvent(): string { "auth:login" }

  /** The event `logout` emits. */
  function LogoutEvent(): string { "auth:logout" }

  /** The store path of the audit log. */
  function AuditPath(): string { "auditLog" }

  class Auth {
    /** The session-storage entry, as `getCurrentUser` reads it back. */
    var session: Option<Value>
    /** The store singleton the audit log lives in. */
    const store: Store
    /** The store path the audit entries are pushed to. */
    const auditLog: string

    /** `stored` is the session entry as `getCurrentUser` reads it back when
        the module is loaded; it survives a reload in the same tab. */
    constructor (store: Store, stored: Option<Value>)
      ensures this.store == store && session == stored && auditLog == AuditPath()
    {
      this.store := store;
      auditLog := AuditPath();
      session := stored;
    }

    /** `getCurrentUser`: the stored session, or `null` without one. */
    function CurrentUser(): (u: Value)
      reads this
      ensures session.None? ==> u == Null
      ensures session.Some? ==> u == session.value
    {
      if session.Some? then session.value else Null
    }

    /** The lookup half of `login`: `(store.get('users') || []).find(...)`. */
    method FindUser(pin: string) returns (r: Result<Option<Value>>)
      ensures r == ChosenUser(store.tree, pin)
    {
      var users := store.Get("users");
      var arr := OrElse(users, Arr([]));
      if !arr.Arr? {
        return Err(TypeError);
      }
      var found := FindFirst(arr.items, u => PinMatches(u, pin));
      if found.Err? {
        return Err(TypeError);
      }
      if found.value.None? {
        return Ok(None);
      }
      r := Ok(Some(arr.items[found.value.value]));
    }

    /** The success half of `login`, for the session `s` of the chosen user
        and its `LOGIN` audit entry: store the session, emit `auth:login`
        (not broadcast), then push the entry. If that push throws, the
        exception escapes with the session already stored. */
    method SignIn(s: Value, entry: Value) returns (r: Result<Value>)
      modifies this`session, store`tree, store`saved, store.bus`calls, store.bus`sent, store.bus`delivered, store.bus`errors, store.bus`posted
      ensures session == Some(s)
      ensures
        var after := Pushed(old(store.tree), auditLog, entry);
        && (after.Err? ==>
              && r == Err(after.fault)
              && store.tree == old(store.tree) && store.saved == old(store.saved)
              && store.bus.sent == old(store.bus.sent)
              && store.bus.calls == old(store.bus.calls) + [EmitCall(LoginEvent(), s, false)])
        && (after.Ok? ==>
              var grown := Arr(ArrayAt(old(store.tree), auditLog).value + [entry]);
              && r == Ok(s)
              && store.tree == after.value && store.saved == old(store.saved) + [after.value]
              && store.bus.sent == old(store.bus.sent) + (if store.bus.IsOpen() then [SetMsg(auditLog, grown)] else [])
              && store.bus.calls == old(store.bus.calls) + [
                   EmitCall(LoginEvent(), s, false),
                   SendToServerCall(auditLog, grown),
                   EmitCall(ChangedEvent, ChangeNote(Str(auditLog), grown), true)])
    {
      session := Some(s);
      store.bus.Emit(LoginEvent(), s, false);
      ghost var mid := store.bus.calls;
      ghost var midSent := store.bus.sent;
      assert midSent == old(store.bus.sent);
      ghost var after := Pushed(store.tree, auditLog, entry);
      r := store.Push(auditLog, entry);
      if r.Ok? {
        assert after.Ok? && store.tree == after.value;
        r := Ok(s);
        ghost var grown := Arr(ArrayAt(old(store.tree), auditLog).value + [entry]);
        assert store.bus.calls == mid + [SendToServerCall(auditLog, grown), EmitCall(ChangedEvent, ChangeNote(Str(auditLog), grown), true)];
      } else {
        assert after.Err? && store.tree == old(store.tree);
        assert store.bus.calls == mid;
      }
    }

    /** `login(pin)`: with no matching user nothing changes and `null` is
        returned; otherwise the outcome of signing that user in. */
    method Login(pin: string, stamp: string, iso: string) returns (r: Result<Value>)
      modifies this`session, store`tree, store`saved, store.bus`calls, store.bus`sent, store.bus`delivered, store.bus`errors, store.bus`posted
      ensures ChosenUser(old(store.tree), pin).Err? ==> r == Err(TypeError) && session == old(session) && store.Untouched()
      ensures ChosenUser(old(store.tree), pin) == Ok(None) ==> r == Ok(Null) && session == old(session) && store.Untouched()
      ensures ChosenUser(old(store.tree), pin).Ok? && ChosenUser(old(store.tree), pin).value.Some? ==>
        var user := ChosenUser(old(store.tree), pin).value.value;
        var entry := AuditEntry(stamp, iso, user, "LOGIN", " logged in");
        var after := Pushed(old(store.tree), auditLog, entry);
        && session == Some(SessionOf(user))
        && (after.Err? ==>
              && r == Err(after.fault)
              && store.tree == old(store.tree) && store.saved == old(store.saved)
              && store.bus.sent == old(store.bus.sent)
              && store.bus.calls == old(store.bus.calls) + [EmitCall(LoginEvent(), SessionOf(user), false)])
        && (after.Ok? ==>
              var grown := Arr(ArrayAt(old(store.tree), auditLog).value + [entry]);
              && r == Ok(SessionOf(user))
              && store.tree == after.value && store.saved == old(store.saved) + [after.value]
              && store.bus.sent == old(store.bus.sent) + (if store.bus.IsOpen() then [SetMsg(auditLog, grown)] else [])
              && store.bus.calls == old(store.bus.calls) + [
                   EmitCall(LoginEvent(), SessionOf(user), false),
                   SendToServerCall(auditLog, grown),
                   EmitCall(ChangedEvent, ChangeNote(Str(auditLog), grown), true)])
    {
      var chosen := FindUser(pin);
      if chosen.Err? {
        return Err(TypeError);
      }
      if chosen.value.None? {
        return Ok(Null);
      }
      var user := chosen.value.value;
      r := SignIn(SessionOf(user), AuditEntry(stamp, iso, user, "LOGIN", " logged in"));
    }

    /** `logout()`. A `LOGOUT` entry is pushed only when someone is logged in;
        if that push throws, `logout` throws before clearing the session. */
    method Logout(stamp: string, iso: string) returns (o: Outcome)
      modifies this`session, store`tree, store`saved, store.bus`calls, store.bus`sent, store.bus`delivered, store.bus`errors, store.bus`posted
      ensures !IsLoggedIn(old(CurrentUser())) ==>
        && o == Done && session == None
        && store.tree == old(store.tree) && store.saved == old(store.saved) && store.bus.sent == old(store.bus.sent)
        && store.bus.calls == old(store.bus.calls) + [EmitCall(LogoutEvent(), Null, false)]
      ensures IsLoggedIn(old(CurrentUser())) ==>
        var entry := AuditEntry(stamp, iso, old(CurrentUser()), "LOGOUT", " logged out");
        var after := Pushed(old(store.tree), auditLog, entry);
        && (after.Err? ==> o == Fail(after.fault) && session == old(session) && store.Untouched())
        && (after.Ok? ==>
              var grown := Arr(ArrayAt(old(store.tree), auditLog).value + [entry]);
              && o == Done && session == None
              && store.tree == after.value && store.saved == old(store.saved) + [after.value]
              && store.bus.sent == old(store.bus.sent) + (if store.bus.IsOpen() then [SetMsg(auditLog, grown)] else [])
              && store.bus.calls == old(store.bus.calls) + [
                   SendToServerCall(auditLog, grown),
                   EmitCall(ChangedEvent, ChangeNote(Str(auditLog), grown), true),
                   EmitCall(LogoutEvent(), Null, false)])
      ensures o == Done ==> !IsLoggedIn(CurrentUser())
    {
      var user := CurrentUser();
      if IsLoggedIn(user) {
        var entry := AuditEntry(stamp, iso, user, "LOGOUT", " logged out");
        ghost var after := Pushed(store.tree, auditLog, entry);
        var pushed := store.Push(auditLog, entry);
        if pushed.Err? {
          assert after.Err?;
          return Fail(pushed.fault);
        }
        assert after.Ok?;
        ghost var grown := Arr(ArrayAt(old(store.tree), auditLog).value + [entry]);
        assert store.tree == after.value && store.saved == old(store.saved) + [after.value];
        assert store.bus.calls == old(store.bus.calls) + [
          SendToServerCall(auditLog, grown), EmitCall(ChangedEvent, ChangeNote(Str(auditLog), grown), true)];
      }
      ghost var mid := store.bus.calls;
      session := None;
      store.bus.Emit(LogoutEvent(), Null, false);
      assert store.bus.calls == mid + [EmitCall(LogoutEvent(), Null, false)];
      assert CurrentUser() == Null;
      o := Done;
    }
  }
}
