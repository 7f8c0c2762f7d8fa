/** The hash router (restaurant/src/core/router.js): a table of routes keyed
    by path or `:param` pattern, the current path derived from the location
    hash, and the decision `resolve` and `_mount` take for it — ignore,
    navigate elsewhere, or mount a handler with the captured parameters. */
module Router {
  import opened Values
  import opened Auth

  /** A registered route: the view handler (an opaque id) and the roles it
      admits (`None` for `null`: any visitor the guard lets through). */
  datatype Route = Route(handler: nat, roles: Option<seq<string>>)

  // ---------------------------------------------------------------------------
  // Hash and path

  predicate StartsWith(s: string, prefix: string) {
    |prefix| <= |s| && s[..|prefix|] == prefix
  }

  /** `s.includes(part)`. */
  predicate Contains(s: string, part: string)
    decreases |s|
  {
    StartsWith(s, part) || (|s| > 0 && Contains(s[1..], part))
  }

  /** `s.slice(2)`. */
  function DropTwo(s: string): string {
    if |s| >= 2 then s[2..] else ""
  }

  /** `getCurrentPath`: `(location.hash || '#/').slice(2) || 'login'`. */
  function CurrentPath(hash: string): (path: string)
    ensures path != ""
    ensures |hash| <= 2 ==> path == "login"
    ensures |hash| > 2 ==> path == hash[2..]
  {
    var rest := DropTwo(if hash == "" then "#/" else hash);
    if rest == "" then "login" else rest
  }

  /** The hash `navigate(path)` assigns. */
  function HashFor(path: string): string {
    "#/" + path
  }

  /** Navigating to a non-empty path makes it the current path; navigating
      to the empty path lands on the login view. */
  lemma NavigateRoundTrip(path: string)
    ensures path != "" ==> CurrentPath(HashFor(path)) == path
    ensures path == "" ==> CurrentPath(HashFor(path)) == "login"
  {
    assert HashFor(path)[2..] == path;
  }

  // ---------------------------------------------------------------------------
  // Patterns

  /** One `/`-separated piece of a route pattern after the rewrite
      `pattern.replace(/:([^/]+)/g, '([^/]+)')`: literal text, or a literal
      prefix followed by a group that captures the rest of the segment. */
  datatype Segment = Lit(text: string) | Param(prefix: string)

  /** The position of the first `:` in `s`, if any. */
  function FirstColon(s: string): (r: Option<nat>)
    ensures r.Some? ==> r.value < |s|
    decreases |s|
  {
    if |s| == 0 then None
    else if s[0] == ':' then Some(0)
    else
      match FirstColon(s[1..])
      case None => None
      case Some(i) => Some(i + 1)
  }

  /** A segment becomes a parameter at its first `:` when at least one
      character follows it (the `[^/]+` of the rewrite); otherwise it is
      literal. */
  function ParseSegment(seg: string): Segment
  {
    match FirstColon(seg)
    case Some(i) => if i + 1 < |seg| then Param(seg[..i]) else Lit(seg)
    case None => Lit(seg)
  }

  /** How one segment of the current path fares against one pattern
      segment: `None` for a mismatch, otherwise the capture (if any). */
  function MatchSegment(p: Segment, seg: string): Option<seq<string>> {
    match p
    case Lit(t) => if seg == t then Some([]) else None
    case Param(pre) =>
      if StartsWith(seg, pre) && |seg| > |pre| then Some([seg[|pre|..]]) else None
  }

  function MatchSegments(ps: seq<Segment>, segs: seq<string>): (r: Option<seq<string>>)
    requires |ps| == |segs|
    decreases |ps|
  {
    if |ps| == 0 then Some([])
    else
      match (MatchSegment(ps[0], segs[0]), MatchSegments(ps[1..], segs[1..]))
      case (Some(c), Some(cs)) => Some(c + cs)
      case _ => None
  }

  /** Whether `path` matches the anchored regular expression built from
      `pattern`, with the captured groups in order. Since a group never
      spans a `/`, the path and the pattern must have the same number of
      segments, matched pairwise. */
  function MatchPattern(pattern: string, path: string): (r: Option<seq<string>>)
    ensures r.Some? ==> |Split(pattern, '/')| == |Split(path, '/')|
  {
    var ps := Split(pattern, '/');
    var segs := Split(path, '/');
    if |ps| != |segs| then None
    else MatchSegments(seq(|ps|, i requires 0 <= i < |ps| => ParseSegment(ps[i])), segs)
  }

  /** The number of capturing segments of a rewritten pattern. */
  function ParamCount(ps: seq<Segment>): nat
    decreases |ps|
  {
    if |ps| == 0 then 0 else (if ps[0].Param? then 1 else 0) + ParamCount(ps[1..])
  }

  /** Segment lists match exactly when every pair matches; then there is one
      capture per parameter, and each capture is a non-empty piece of a path
      segment, so it holds no `/`. */
  lemma {:induction false} MatchSegmentsCaptures(ps: seq<Segment>, segs: seq<string>)
    requires |ps| == |segs|
    requires forall i :: 0 <= i < |segs| ==> '/' !in segs[i]
    ensures MatchSegments(ps, segs).Some? <==> forall i :: 0 <= i < |ps| ==> MatchSegment(ps[i], segs[i]).Some?
    ensures MatchSegments(ps, segs).Some? ==>
      && |MatchSegments(ps, segs).value| == ParamCount(ps)
      && forall c :: c in MatchSegments(ps, segs).value ==> c != "" && '/' !in c
    decreases |ps|
  {
    if |ps| > 0 {
      MatchSegmentsCaptures(ps[1..], segs[1..]);
      assert forall i :: 1 <= i < |ps| ==> ps[1..][i - 1] == ps[i] && segs[1..][i - 1] == segs[i];
      var head := MatchSegment(ps[0], segs[0]);
      if head.Some? && ps[0].Param? {
        var pre := ps[0].prefix;
        assert head.value == [segs[0][|pre|..]];
        assert forall x :: x in segs[0][|pre|..] ==> x in segs[0];
      }
    }
  }

  /** Every capture of a matching pattern is a non-empty run of characters
      without `/`, one per `:param` segment. */
  lemma MatchPatternCaptures(pattern: string, path: string)
    ensures MatchPattern(pattern, path).Some? ==>
      var ps := Split(pattern, '/');
      && |MatchPattern(pattern, path).value| == ParamCount(seq(|ps|, i requires 0 <= i < |ps| => ParseSegment(ps[i])))
      && forall c :: c in MatchPattern(pattern, path).value ==> c != "" && '/' !in c
  {
    var ps := Split(pattern, '/');
    var segs := Split(path, '/');
    if |ps| == |segs| {
      MatchSegmentsCaptures(seq(|ps|, i requires 0 <= i < |ps| => ParseSegment(ps[i])), segs);
    }
  }

  lemma {:induction false} NoColonIsLiteral(seg: string)
    requires ':' !in seg
    ensures FirstColon(seg) == None && ParseSegment(seg) == Lit(seg)
    decreases |seg|
  {
    if |seg| > 0 {
      assert forall x :: x in seg[1..] ==> x in seg;
      NoColonIsLiteral(seg[1..]);
    }
  }

  /** A key without `:` is a literal route: as a pattern it matches exactly
      the path equal to it, and captures nothing. */
  lemma LiteralPatternMatchesItself(pattern: string, path: string)
    requires ':' !in pattern
    ensures MatchPattern(pattern, path).Some? <==> path == pattern
    ensures MatchPattern(pattern, path).Some? ==> MatchPattern(pattern, path).value == []
  {
    var ps := Split(pattern, '/');
    var segs := Split(path, '/');
    var parsed := seq(|ps|, i requires 0 <= i < |ps| => ParseSegment(ps[i]));
    forall i | 0 <= i < |ps| ensures parsed[i] == Lit(ps[i]) {
      assert forall x :: x in ps[i] ==> x in pattern by {
        SplitPieces(pattern, '/');
      }
      NoColonIsLiteral(ps[i]);
    }
    if |ps| == |segs| {
      MatchSegmentsCaptures(parsed, segs);
      if MatchPattern(pattern, path).Some? {
        assert forall i :: 0 <= i < |ps| ==> segs[i] == ps[i];
        assert segs == ps;
        JoinSplit(pattern, '/');
        JoinSplit(path, '/');
        LiteralCapturesNothing(parsed, segs);
      }
    }
    if path == pattern {
      LiteralSelfMatch(parsed, ps);
    }
  }

  /** Literal segments capture nothing. */
  lemma {:induction false} LiteralCapturesNothing(ps: seq<Segment>, segs: seq<string>)
    requires |ps| == |segs| && forall i :: 0 <= i < |ps| ==> ps[i].Lit?
    ensures MatchSegments(ps, segs).Some? ==> MatchSegments(ps, segs).value == []
    decreases |ps|
  {
    if |ps| > 0 {
      assert forall i :: 1 <= i < |ps| ==> ps[1..][i - 1] == ps[i];
      LiteralCapturesNothing(ps[1..], segs[1..]);
    }
  }

  lemma {:induction false} LiteralSelfMatch(ps: seq<Segment>, texts: seq<string>)
    requires |ps| == |texts| && forall i :: 0 <= i < |ps| ==> ps[i] == Lit(texts[i])
    ensures MatchSegments(ps, texts) == Some([])
    decreases |ps|
  {
    if |ps| > 0 {
      assert forall i :: 1 <= i < |ps| ==> ps[1..][i - 1] == ps[i] && texts[1..][i - 1] == texts[i];
      LiteralSelfMatch(ps[1..], texts[1..]);
      var none: seq<string> := [];
      assert MatchSegment(ps[0], texts[0]) == Some(none);
      assert MatchSegments(ps, texts) == Some(none + none);
      assert none + none == none;
    }
  }

  /** The first key, in registration order, whose pattern matches, with
      its captures. */
  function FirstMatch(order: seq<string>, path: string): Option<(string, seq<string>)>
    decreases |order|
  {
    if |order| == 0 then None
    else if MatchPattern(order[0], path).Some? then Some((order[0], MatchPattern(order[0], path).value))
    else FirstMatch(order[1..], path)
  }

  lemma {:induction false} FirstMatchFromOrder(order: seq<string>, path: string)
    ensures FirstMatch(order, path).Some? ==> FirstMatch(order, path).value.0 in order
    decreases |order|
  {
    if |order| > 0 && MatchPattern(order[0], path).None? {
      FirstMatchFromOrder(order[1..], path);
    }
  }

  /** The search returns a matching key with its captures, and no key
      registered before it matches; it comes back empty only when no key
      matches at all. */
  lemma {:induction false} FirstMatchIsFirst(order: seq<string>, path: string)
    ensures FirstMatch(order, path).Some? ==>
      var (k, caps) := FirstMatch(order, path).value;
      MatchPattern(k, path) == Some(caps) &&
      exists i :: (0 <= i < |order| && order[i] == k && forall j :: 0 <= j < i ==> MatchPattern(order[j], path).None?)
    ensures FirstMatch(order, path).None? ==> forall k :: k in order ==> MatchPattern(k, path).None?
    decreases |order|
  {
    if |order| > 0 && MatchPattern(order[0], path).None? {
      FirstMatchIsFirst(order[1..], path);
      if FirstMatch(order[1..], path).Some? {
        var (k, caps) := FirstMatch(order[1..], path).value;
        var i :| 0 <= i < |order[1..]| && order[1..][i] == k
          && forall j :: 0 <= j < i ==> MatchPattern(order[1..][j], path).None?;
        assert order[i + 1] == k;
        assert forall j :: 1 <= j < i + 1 ==> order[j] == order[1..][j - 1];
      } else {
        assert forall k :: k in order ==> k == order[0] || k in order[1..];
      }
    } else if |order| > 0 {
      assert order[0] == FirstMatch(order, path).value.0;
    }
  }

  /** The route `_mount` picks for a path: the exact entry when there is one
      (its parameters are then empty), otherwise the first matching pattern
      in registration order with its captures. */
  function FindRoute(routes: map<string, Route>, order: seq<string>, path: string): (r: Option<(Route, seq<string>)>)
    requires forall k :: k in order ==> k in routes
    ensures path in routes ==> r == Some((routes[path], []))
    ensures r.Some? ==> r.value.0 in routes.Values
  {
    if path in routes then Some((routes[path], []))
    else
      match FirstMatch(order, path)
      case None => None
      case Some((k, caps)) => FirstMatchFromOrder(order, path); Some((routes[k], caps))
  }

  /** An exact entry wins, with no parameters. Otherwise the route found is
      that of a registered key whose pattern matches with exactly the
      returned captures and before which no registered key matches; and no
      route is found only when no registered key matches at all. */
  lemma FindRoutePicks(routes: map<string, Route>, order: seq<string>, path: string)
    requires forall k :: k in order ==> k in routes
    ensures path in routes ==> FindRoute(routes, order, path) == Some((routes[path], []))
    ensures path !in routes && FindRoute(routes, order, path).Some? ==>
      exists i :: (0 <= i < |order| && routes[order[i]] == FindRoute(routes, order, path).value.0
        && MatchPattern(order[i], path) == Some(FindRoute(routes, order, path).value.1)
        && forall j :: 0 <= j < i ==> MatchPattern(order[j], path).None?)
    ensures path !in routes && FindRoute(routes, order, path).None? ==>
      forall k :: k in order ==> MatchPattern(k, path).None?
  {
    FirstMatchIsFirst(order, path);
    if path !in routes && FirstMatch(order, path).Some? {
      var (k, caps) := FirstMatch(order, path).value;
      var i :| 0 <= i < |order| && order[i] == k && forall j :: 0 <= j < i ==> MatchPattern(order[j], path).None?;
      assert routes[order[i]] == FindRoute(routes, order, path).value.0;
    }
  }

  // ---------------------------------------------------------------------------
  // Decisions

  /** What `_mount` does once it has cleaned up: navigate to the user's
      default view (or to login) when no route matches, navigate to the
      guard's answer when the route's roles refuse the user, or call the
      handler with the captured parameters. */
  datatype Mounting = NoRoute(to: string) | Denied(to: string) | Mounted(route: Route, params: seq<string>)

  /** What `resolve` does: nothing, navigate without mounting, or mount. */
  datatype Resolution = Ignored | Redirected(to: string) | Mount(path: string, m: Mounting)

  /** Where a resolution navigates to, if anywhere. */
  function Target(res: Resolution): Option<string> {
    match res
    case Ignored => None
    case Redirected(to) => Some(to)
    case Mount(_, NoRoute(to)) => Some(to)
    case Mount(_, Denied(to)) => Some(to)
    case Mount(_, Mounted(_, _)) => None
  }

  /** The matching and guarding part of `_mount(path)`. */
  function MountDecision(routes: map<string, Route>, order: seq<string>, path: string, user: Value): (m: Mounting)
    requires forall k :: k in order ==> k in routes
    ensures FindRoute(routes, order, path).None? ==>
      m == NoRoute(if IsLoggedIn(user) then RoleDefaultRoute(Prop(user, "role")) else "login")
    ensures m.Denied? ==> FindRoute(routes, order, path).Some? && Guard(user, FindRoute(routes, order, path).value.0.roles) == Some(m.to)
    ensures (FindRoute(routes, order, path).Some? && FindRoute(routes, order, path).value.0.roles.Some? &&
      Guard(user, FindRoute(routes, order, path).value.0.roles).Some?) ==>
      m == Denied(Guard(user, FindRoute(routes, order, path).value.0.roles).value)
    ensures m.Mounted? <==> (FindRoute(routes, order, path).Some? &&
      (FindRoute(routes, order, path).value.0.roles.None? || Guard(user, FindRoute(routes, order, path).value.0.roles).None?))
    ensures m.Mounted? ==> Some((m.route, m.params)) == FindRoute(routes, order, path)
  {
    match FindRoute(routes, order, path)
    case None => NoRoute(if IsLoggedIn(user) then RoleDefaultRoute(Prop(user, "role")) else "login")
    case Some((route, params)) =>
      if route.roles.Some? && Guard(user, route.roles).Some? then Denied(Guard(user, route.roles).value)
      else Mounted(route, params)
  }

  /** `resolve()` for the current hash and the user `getCurrentUser` reads. */
  function Decide(routes: map<string, Route>, order: seq<string>, hash: string, user: Value): (res: Resolution)
    requires forall k :: k in order ==> k in routes
    ensures res.Ignored? <==> StartsWith(CurrentPath(hash), "customer/") && Contains(hash, "#cat-")
    ensures res.Redirected? ==> res.to == "login" || res.to == RoleDefaultRoute(Prop(user, "role"))
    ensures res.Mount? ==> res.path == CurrentPath(hash) && res.m == MountDecision(routes, order, res.path, user)
    ensures res.Mount? <==>
      || (StartsWith(CurrentPath(hash), "customer/") && !Contains(hash, "#cat-"))
      || (!StartsWith(CurrentPath(hash), "customer/") && (CurrentPath(hash) == "login" <==> !IsLoggedIn(user)))
  {
    var path := CurrentPath(hash);
    if StartsWith(path, "customer/") then
      if Contains(hash, "#cat-") then Ignored else Mount(path, MountDecision(routes, order, path, user))
    else if path != "login" && !IsLoggedIn(user) then Redirected("login")
    else if path == "login" && IsLoggedIn(user) then Redirected(RoleDefaultRoute(Prop(user, "role")))
    else Mount(path, MountDecision(routes, order, path, user))
  }

  /** Customer paths skip the sign-in checks; an anchor inside one is left
      to the browser. */
  lemma CustomerPathsSkipAuth(routes: map<string, Route>, order: seq<string>, hash: string, user: Value)
    requires forall k :: k in order ==> k in routes
    requires StartsWith(CurrentPath(hash), "customer/")
    ensures Contains(hash, "#cat-") ==> Decide(routes, order, hash, user) == Ignored
    ensures !Contains(hash, "#cat-") ==>
      Decide(routes, order, hash, user) == Mount(CurrentPath(hash), MountDecision(routes, order, CurrentPath(hash), user))
  {
  }

  /** Without a user, every navigation `resolve` starts (outside the
      customer paths, where a route may admit anyone) goes to `login`. */
  lemma LoggedOutGoesToLogin(routes: map<string, Route>, order: seq<string>, hash: string, user: Value)
    requires forall k :: k in order ==> k in routes
    requires !IsLoggedIn(user)
    ensures Target(Decide(routes, order, hash, user)).Some? ==> Target(Decide(routes, order, hash, user)) == Some("login")
    ensures !StartsWith(CurrentPath(hash), "customer/") && CurrentPath(hash) != "login" ==>
      Decide(routes, order, hash, user) == Redirected("login")
  {
  }

  /** With a user, every navigation `resolve` starts goes to that user's
      default view, whatever the route table. */
  lemma LoggedInGoesToDefault(routes: map<string, Route>, order: seq<string>, hash: string, user: Value)
    requires forall k :: k in order ==> k in routes
    requires IsLoggedIn(user)
    ensures Target(Decide(routes, order, hash, user)).Some? ==>
      Target(Decide(routes, order, hash, user)) == Some(RoleDefaultRoute(Prop(user, "role")))
    ensures CurrentPath(hash) == "login" ==> Decide(routes, order, hash, user) == Redirected(RoleDefaultRoute(Prop(user, "role")))
  {
  }

  // ---------------------------------------------------------------------------
  // The application's route table (restaurant/src/main.js)
  //
  // The lemmas of this section are worked examples: the general facts are
  // FindRoutePicks, MountDecision and Decide's lemmas above, applied here to
  // the one table the application registers.

  const LoginView: nat := 0
  const WaiterTablesView: nat := 1
  const WaiterOrderView: nat := 2
  const WaiterStatusView: nat := 3
  const KitchenView: nat := 4
  const CashierView: nat := 5
  const ManagerDashboardView: nat := 6
  const ManagerMenuView: nat := 7
  const ManagerTablesView: nat := 8
  const ManagerStaffView: nat := 9
  const ManagerReportsView: nat := 10
  const CustomerTableView: nat := 11

  /** The registration order of the application's routes. */
  function AppOrder(): seq<string> {
    ["login", "waiter/tables", "waiter/order/:tableId", "waiter/status", "kitchen", "cashier",
     "manager/dashboard", "manager/menu", "manager/tables", "manager/staff", "manager/reports",
     "customer/table/:tableId"]
  }

  /** The application's route table. */
  function AppRoutes(): map<string, Route> {
    map[
      "login" := Route(LoginView, None),
      "waiter/tables" := Route(WaiterTablesView, Some(["waiter", "manager"])),
      "waiter/order/:tableId" := Route(WaiterOrderView, Some(["waiter", "manager"])),
      "waiter/status" := Route(WaiterStatusView, Some(["waiter", "manager"])),
      "kitchen" := Route(KitchenView, Some(["kitchen", "manager"])),
      "cashier" := Route(CashierView, Some(["cashier", "manager"])),
      "manager/dashboard" := Route(ManagerDashboardView, Some(["manager"])),
      "manager/menu" := Route(ManagerMenuView, Some(["manager"])),
      "manager/tables" := Route(ManagerTablesView, Some(["manager"])),
      "manager/staff" := Route(ManagerStaffView, Some(["manager"])),
      "manager/reports" := Route(ManagerReportsView, Some(["manager"])),
      "customer/table/:tableId" := Route(CustomerTableView, None)]
  }

  /** A registered path outside the customer area and other than `login`
      mounts its exact route, with no parameters, for a signed-in user the
      route admits. */
  lemma ExactRouteMounts(routes: map<string, Route>, order: seq<string>, d: string, user: Value)
    requires forall k :: k in order ==> k in routes
    requires d != "" && d != "login" && !StartsWith(d, "customer/") && d in routes
    requires IsLoggedIn(user) && (routes[d].roles.None? || HasRole(user, routes[d].roles.value))
    ensures Decide(routes, order, HashFor(d), user) == Mount(d, Mounted(routes[d], []))
  {
    NavigateRoundTrip(d);
  }

  /** Every signed-in user with one of the four staff roles has a default
      view that the application's table mounts for them at once: together
      with `LoggedInGoesToDefault`, `resolve` never redirects them twice. */
  lemma DefaultViewMounts(user: Value, role: string)
    requires IsLoggedIn(user) && Prop(user, "role") == Str(role) && role in KnownRoles
    ensures
      var d := RoleDefaultRoute(Str(role));
      d in AppRoutes() && Decide(AppRoutes(), AppOrder(), HashFor(d), user) == Mount(d, Mounted(AppRoutes()[d], []))
  {
    var d := RoleDefaultRoute(Str(role));
    var routes := AppRoutes();
    if role == "waiter" {
      assert d == "waiter/tables" && routes[d].roles == Some(["waiter", "manager"]);
    } else if role == "kitchen" {
      assert d == "kitchen" && routes[d].roles == Some(["kitchen", "manager"]);
    } else if role == "cashier" {
      assert d == "cashier" && routes[d].roles == Some(["cashier", "manager"]);
    } else {
      assert d == "manager/dashboard" && routes[d].roles == Some(["manager"]);
    }
    assert d[0] != 'c' || |d| < 9;
    ExactRouteMounts(routes, AppOrder(), d, user);
  }

  /** The login view mounts for a visitor who is not signed in. */
  lemma LoginViewMounts(user: Value)
    requires !IsLoggedIn(user)
    ensures Decide(AppRoutes(), AppOrder(), HashFor("login"), user) == Mount("login", Mounted(Route(LoginView, None), []))
  {
    NavigateRoundTrip("login");
  }

  /** A signed-in user whose role is none of the four is sent from the login
      view to the login view again: the hash does not change, so no further
      `hashchange` arrives and no view is mounted. */
  lemma UnknownRoleStaysOnLogin(user: Value)
    requires IsLoggedIn(user) && forall r :: r in KnownRoles ==> Prop(user, "role") != Str(r)
    ensures Decide(AppRoutes(), AppOrder(), HashFor("login"), user) == Redirected("login")
  {
    NavigateRoundTrip("login");
  }

  /** A table number after `waiter/order/` selects the order view and is
      passed to it as the single parameter. */
  lemma OrderPathCaptures(id: string)
    requires id != "" && '/' !in id && id != ":tableId"
    ensures FindRoute(AppRoutes(), AppOrder(), "waiter/order/" + id) == Some((Route(WaiterOrderView, Some(["waiter", "manager"])), [id]))
  {
    OrderPathNotExact(id);
    OrderPathFirstMatch(AppOrder(), id, "waiter/order/" + id);
    assert AppRoutes()["waiter/order/:tableId"] == Route(WaiterOrderView, Some(["waiter", "manager"]));
  }

  lemma OrderPathFirstMatch(order: seq<string>, id: string, path: string)
    requires |order| >= 3 && order[0] == "login" && order[1] == "waiter/tables" && order[2] == "waiter/order/:tableId"
    requires id != "" && '/' !in id && path == "waiter/order/" + id
    ensures FirstMatch(order, path) == Some(("waiter/order/:tableId", [id]))
  {
    OrderPathSkips(id, path, order[0], ["login"]);
    OrderPathSkips(id, path, order[1], ["waiter", "tables"]);
    OrderPatternMatches(id, path, order[2]);
    assert FirstMatch(order, path) == FirstMatch(order[1..], path);
    assert order[1..][0] == order[1] && order[1..][1..] == order[2..];
    assert FirstMatch(order[1..], path) == FirstMatch(order[2..], path);
    assert order[2..][0] == order[2];
  }

  /** The order path has three segments, so no shorter pattern matches it. */
  lemma OrderPathSkips(id: string, path: string, pattern: string, segs: seq<string>)
    requires '/' !in id && path == "waiter/order/" + id
    requires 1 <= |segs| < 3 && Join(segs, '/') == pattern && forall i :: 0 <= i < |segs| ==> '/' !in segs[i]
    ensures MatchPattern(pattern, path).None?
  {
    OrderPathSegments(id);
    PatternSegments(pattern, segs);
    NoMatchTwoSegments(pattern, path);
  }

  /** A pattern never matches a path with a different number of segments. */
  lemma NoMatchTwoSegments(pattern: string, path: string)
    requires |Split(pattern, '/')| != |Split(path, '/')|
    ensures MatchPattern(pattern, path).None?
  {
  }

  /** The pattern of the order view, rewritten, captures the table number. */
  lemma OrderPatternMatches(id: string, path: string, pattern: string)
    requires id != "" && '/' !in id && path == "waiter/order/" + id && pattern == "waiter/order/:tableId"
    ensures MatchPattern(pattern, path) == Some([id])
  {
    PatternSegments(pattern, ["waiter", "order", ":tableId"]);
    OrderPathSegments(id);
    OrderPatternParsed(["waiter", "order", ":tableId"]);
    OrderSegmentsMatch(id);
  }

  lemma OrderPatternParsed(raw: seq<string>)
    requires raw == ["waiter", "order", ":tableId"]
    ensures seq(|raw|, i requires 0 <= i < |raw| => ParseSegment(raw[i])) == [Lit("waiter"), Lit("order"), Param("")]
  {
    assert ":tableId"[..0] == "";
  }

  lemma OrderSegmentsMatch(id: string)
    requires id != ""
    ensures MatchSegments([Lit("waiter"), Lit("order"), Param("")], ["waiter", "order", id]) == Some([id])
  {
    var ps := [Lit("waiter"), Lit("order"), Param("")];
    var xs := ["waiter", "order", id];
    assert id[0..] == id;
    assert MatchSegment(Param(""), id) == Some([id]);
    assert ps[2..] == [Param("")] && xs[2..] == [id];
    assert MatchSegments(ps[2..][1..], xs[2..][1..]) == Some([]);
    assert [id] + [] == [id];
    assert MatchSegments(ps[2..], xs[2..]) == Some([id]);
    assert ps[1..][1..] == ps[2..] && xs[1..][1..] == xs[2..];
    assert [] + [id] == [id];
    assert MatchSegments(ps[1..], xs[1..]) == Some([id]);
  }

  lemma OrderPathSegments(id: string)
    requires '/' !in id
    ensures Split("waiter/order/" + id, '/') == ["waiter", "order", id]
  {
    assert Join([id], '/') == id;
    assert Join(["order", id], '/') == "order/" + id;
    assert Join(["waiter", "order", id], '/') == "waiter/" + ("order/" + id);
    assert "waiter/" + ("order/" + id) == "waiter/order/" + id;
    SplitJoin(["waiter", "order", id], '/');
  }

  lemma OrderPathNotExact(id: string)
    requires id != "" && id != ":tableId"
    ensures "waiter/order/" + id !in AppRoutes()
  {
    var path := "waiter/order/" + id;
    assert path[0] == 'w' && |path| > 13 && path[13..] == id;
    forall k | k in AppRoutes() ensures k != path {
      if k != "waiter/order/:tableId" {
        assert |k| <= 13 || k[0] != 'w';
      }
    }
  }

  /** The segments of a pattern that has no `/` inside its pieces. */
  lemma PatternSegments(pattern: string, segs: seq<string>)
    requires |segs| >= 1 && Join(segs, '/') == pattern
    requires forall i :: 0 <= i < |segs| ==> '/' !in segs[i]
    ensures Split(pattern, '/') == segs
  {
    SplitJoin(segs, '/');
  }

  // ---------------------------------------------------------------------------
  // The router

  class Router {
    /** `routes`, keyed by path or pattern. */
    var routes: map<string, Route>
    /** The keys of `routes` in the order `Object.entries` lists them. */
    var order: seq<string>
    /** `location.hash`. */
    var hash: string
    /** `currentCleanup`: the id of the function the mounted view returned. */
    var cleanup: Option<nat>
    /** The cleanup functions called so far, in order. */
    var cleaned: seq<nat>
    /** The handler calls made so far, with their arguments. */
    var mounted: seq<(nat, seq<string>)>
    /** The auth module whose session the router consults. */
    const auth: Auth

    ghost predicate Valid()
      reads this
    {
      && (forall k :: k in order <==> k in routes)
      && (forall i, j :: 0 <= i < j < |order| ==> order[i] != order[j])
    }

    constructor (auth: Auth, hash: string)
      ensures Valid()
      ensures this.auth == auth && this.hash == hash
      ensures routes == map[] && order == [] && cleanup == None && cleaned == [] && mounted == []
    {
      this.auth := auth;
      this.hash := hash;
      routes := map[];
      order := [];
      cleanup := None;
      cleaned := [];
      mounted := [];
    }

    /** `register(path, handler, roles)`: a new key joins the end of the
        order; registering a key again replaces its entry in place. */
    method Register(path: string, handler: nat, roles: Option<seq<string>>)
      requires Valid()
      modifies this`routes, this`order
      ensures Valid()
      ensures routes == old(routes)[path := Route(handler, roles)]
      ensures order == if path in old(routes) then old(order) else old(order) + [path]
    {
      if path !in routes {
        order := order + [path];
      }
      routes := routes[path := Route(handler, roles)];
    }

    /** `navigate(path)`. */
    method Navigate(path: string)
      modifies this`hash
      ensures hash == HashFor(path)
      ensures path != "" ==> CurrentPath(hash) == path
    {
      hash := "#/" + path;
      NavigateRoundTrip(path);
    }

    /** The route search of `_mount`: the exact entry, else the loop over
        the entries that stops at the first pattern that matches. */
    method LookupRoute(path: string) returns (r: Option<(Route, seq<string>)>)
      requires Valid()
      ensures r == FindRoute(routes, order, path)
    {
      if path in routes {
        return Some((routes[path], []));
      }
      for i := 0 to |order|
        invariant forall j :: 0 <= j < i ==> MatchPattern(order[j], path).None?
        invariant FirstMatch(order, path) == FirstMatch(order[i..], path)
      {
        var caps := MatchPattern(order[i], path);
        if caps.Some? {
          return Some((routes[order[i]], caps.value));
        }
        assert order[i..][1..] == order[i + 1..];
      }
      assert order[|order|..] == [];
      r := None;
    }

    /** `resolve()`; `returned` is the id of the function the mounted
        handler returns, or `None` when it returns anything else. */
    method Resolve(returned: Option<nat>) returns (res: Resolution)
      requires Valid()
      modifies this`hash, this`cleanup, this`cleaned, this`mounted
      ensures res == Decide(routes, order, old(hash), auth.CurrentUser())
      ensures res == Ignored ==> hash == old(hash) && cleanup == old(cleanup) && cleaned == old(cleaned) && mounted == old(mounted)
      ensures res.Redirected? ==>
        hash == HashFor(res.to) && cleanup == old(cleanup) && cleaned == old(cleaned) && mounted == old(mounted)
      ensures res.Mount? ==>
        cleaned == old(cleaned) + (if old(cleanup).Some? then [old(cleanup).value] else [])
      ensures res.Mount? && !res.m.Mounted? ==>
        hash == HashFor(res.m.to) && cleanup == None && mounted == old(mounted)
      ensures res.Mount? && res.m.Mounted? ==>
        hash == old(hash) && cleanup == returned && mounted == old(mounted) + [(res.m.route.handler, res.m.params)]
    {
      var path := CurrentPath(hash);
      var user := auth.CurrentUser();
      if StartsWith(path, "customer/") {
        if Contains(hash, "#cat-") {
          return Ignored;
        }
        var m := MountPath(path, returned);
        return Mount(path, m);
      }
      if path != "login" && !IsLoggedIn(user) {
        Navigate("login");
        return Redirected("login");
      }
      if path == "login" && IsLoggedIn(user) {
        var to := RoleDefaultRoute(Prop(user, "role"));
        Navigate(to);
        return Redirected(to);
      }
      var m := MountPath(path, returned);
      res := Mount(path, m);
    }

    /** `_mount(path)`: run and clear the previous cleanup, then fall back,
        refuse or mount; `returned` is as for `Resolve`. */
    method MountPath(path: string, returned: Option<nat>) returns (m: Mounting)
      requires Valid()
      modifies this`hash, this`cleanup, this`cleaned, this`mounted
      ensures m == MountDecision(routes, order, path, auth.CurrentUser())
      ensures cleaned == old(cleaned) + (if old(cleanup).Some? then [old(cleanup).value] else [])
      ensures !m.Mounted? ==> hash == HashFor(m.to) && cleanup == None && mounted == old(mounted)
      ensures m.Mounted? ==> hash == old(hash) && cleanup == returned && mounted == old(mounted) + [(m.route.handler, m.params)]
    {
      if cleanup.Some? {
        cleaned := cleaned + [cleanup.value];
        cleanup := None;
      }
      var found := LookupRoute(path);
      var user := auth.CurrentUser();
      if found.None? {
        var to := if IsLoggedIn(user) then RoleDefaultRoute(Prop(user, "role")) else "login";
        Navigate(to);
        return NoRoute(to);
      }
      var route := found.value.0;
      if route.roles.Some? {
        var redirect := Guard(user, route.roles);
        if redirect.Some? {
          Navigate(redirect.value);
          return Denied(redirect.value);
        }
      }
      mounted := mounted + [(route.handler, found.value.1)];
      cleanup := returned;
      m := Mounted(route, found.value.1);
    }
  }
}
