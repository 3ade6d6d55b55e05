/** The app's routes, the add/edit route builder and its template, the splash
    screen's timeout decision and the sign-in guard of the item destinations. */
module AppNavigationModel {
  import opened Wrappers
  import opened Text
  import opened AuthRepositoryModel

  const Splash: string := "splash"
  const Login: string := "login"
  const Register: string := "register"
  const ForgotPassword: string := "forgot_password"
  const ResetPasswordConfirm: string := "reset_password_confirm"
  const ItemList: string := "item_list"
  const AddEditItemBase: string := "add_edit_item"
  const AddEditItemArgId: string := "itemId"
  /** `"$ADD_EDIT_ITEM_BASE?$ADD_EDIT_ITEM_ARG_ID={$ADD_EDIT_ITEM_ARG_ID}"`. */
  const AddEditItemRouteTemplate: string := AddEditItemBase + "?" + AddEditItemArgId + "={" + AddEditItemArgId + "}"
  /** The template's placeholder, `{itemId}`. */
  const Placeholder: string := "{" + AddEditItemArgId + "}"

  // ------------------------------------------------------ the route builder

  /** `AppRoutes.addEditItemRoute(itemId)`. */
  function AddEditItemRoute(itemId: Option<string>): string {
    if itemId.Some? then AddEditItemBase + "?" + AddEditItemArgId + "=" + itemId.value
    else AddEditItemBase
  }

  /** Kotlin's `String.replace(old, new)`: every non-overlapping occurrence of
      `pat`, scanning left to right, replaced by `rep`. */
  function ReplaceAll(s: string, pat: string, rep: string): string
    requires |pat| > 0
    decreases |s|
  {
    if |s| < |pat| then s
    else if s[..|pat|] == pat then rep + ReplaceAll(s[|pat|..], pat, rep)
    else [s[0]] + ReplaceAll(s[1..], pat, rep)
  }

  /** A prefix that does not contain the pattern's first character is copied. */
  lemma {:induction false} ReplaceAllSkips(p: string, rest: string, pat: string, rep: string)
    requires |pat| > 0 && pat[0] !in p
    ensures ReplaceAll(p + rest, pat, rep) == p + ReplaceAll(rest, pat, rep)
    decreases |p|
  {
    if p != [] {
      var s := p + rest;
      assert s[0] == p[0] != pat[0];
      if |s| < |pat| {
        assert ReplaceAll(rest, pat, rep) == rest;
        assert ReplaceAll(s, pat, rep) == s;
      } else {
        assert s[..|pat|] != pat;
        ReplaceAllSkips(p[1..], rest, pat, rep);
        assert p[1..] + rest == s[1..];
        assert ReplaceAll(s, pat, rep) == [s[0]] + ReplaceAll(s[1..], pat, rep);
        assert p == [p[0]] + p[1..];
      }
    } else {
      assert p + rest == rest;
    }
  }

  /** The built route is the template with its placeholder substituted:
      `ADD_EDIT_ITEM_ROUTE_TEMPLATE.replace("{itemId}", id) == addEditItemRoute(id)`. */
  lemma {:induction false} RouteIsTemplateInstance(id: string)
    ensures ReplaceAll(AddEditItemRouteTemplate, Placeholder, id) == AddEditItemRoute(Some(id))
  {
    var p := AddEditItemBase + "?" + AddEditItemArgId + "=";
    assert AddEditItemRouteTemplate == p + Placeholder;
    assert Placeholder[0] !in p;
    ReplaceAllSkips(p, Placeholder, Placeholder, id);
    assert Placeholder[..|Placeholder|] == Placeholder;
    assert Placeholder[|Placeholder|..] == [];
    assert ReplaceAll(Placeholder, Placeholder, id) == id + ReplaceAll([], Placeholder, id);
  }

  /** The item id the add/edit destination reads back from a route built by
      AddEditItemRoute: none for the bare base, the text after `itemId=`
      otherwise. */
  function ItemIdArgument(route: string): Option<string> {
    var prefix := AddEditItemBase + "?" + AddEditItemArgId + "=";
    if StartsWith(route, prefix) then Some(route[|prefix|..]) else None
  }

  /** The builder's promises: no id gives exactly the base route; every route
      starts with the base; and the id is recovered from the route, so distinct
      ids give distinct routes and no id route equals the bare base. */
  lemma AddEditItemRouteSpec(itemId: Option<string>)
    ensures itemId.None? ==> AddEditItemRoute(itemId) == "add_edit_item"
    ensures itemId.Some? ==> AddEditItemRoute(itemId) == "add_edit_item?itemId=" + itemId.value
    ensures StartsWith(AddEditItemRoute(itemId), AddEditItemBase)
    ensures ItemIdArgument(AddEditItemRoute(itemId)) == itemId
  {
    var prefix := AddEditItemBase + "?" + AddEditItemArgId + "=";
    var r := AddEditItemRoute(itemId);
    if itemId.Some? {
      assert r == prefix + itemId.value;
      assert r[..|prefix|] == prefix;
      assert r[|prefix|..] == itemId.value;
      assert r[..|AddEditItemBase|] == AddEditItemBase;
    } else {
      assert |r| < |prefix|;
      assert r[..|AddEditItemBase|] == AddEditItemBase;
    }
  }

  /** Distinct ids, or an id against none, give distinct routes. */
  lemma AddEditItemRouteInjective(a: Option<string>, b: Option<string>)
    ensures AddEditItemRoute(a) == AddEditItemRoute(b) ==> a == b
  {
    AddEditItemRouteSpec(a);
    AddEditItemRouteSpec(b);
  }

  // --------------------------------------------------------------- splash

  datatype SplashAction = GoToItemList | GoToLogin | StayPut

  /** The splash screen's `onTimeout`: a signed-in user goes to the item list;
      otherwise `currentRoute?.startsWith(RESET_PASSWORD_CONFIRM) == false`
      decides, which is false for a null route. */
  function SplashDecision(currentUser: Option<SignedInUser>, currentRoute: Option<string>): SplashAction {
    if currentUser.Some? then GoToItemList
    else if currentRoute.Some? && !StartsWith(currentRoute.value, ResetPasswordConfirm) then GoToLogin
    else StayPut
  }

  /** The three cases in full: the item list exactly for a signed-in user;
      login exactly for no user, a current route, and one outside the reset
      flow; otherwise (a null route included) no navigation. */
  lemma SplashDecisionSpec(currentUser: Option<SignedInUser>, currentRoute: Option<string>)
    ensures SplashDecision(currentUser, currentRoute) == GoToItemList <==> currentUser.Some?
    ensures SplashDecision(currentUser, currentRoute) == GoToLogin <==>
              currentUser.None? && currentRoute.Some? && !StartsWith(currentRoute.value, ResetPasswordConfirm)
    ensures currentUser.None? && currentRoute.None? ==> SplashDecision(currentUser, currentRoute) == StayPut
  {
  }

  /** A signed-out splash that is already showing the reset-password route
      (a deep link) is left alone, while one on the splash route goes to login. */
  lemma SplashKeepsResetDeepLink(oobRoute: string)
    ensures SplashDecision(None, Some(ResetPasswordConfirm + oobRoute)) == StayPut
    ensures SplashDecision(None, Some(Splash)) == GoToLogin
  {
    var r := ResetPasswordConfirm + oobRoute;
    assert r[..|ResetPasswordConfirm|] == ResetPasswordConfirm;
    assert Splash[0] != ResetPasswordConfirm[0];
  }

  // ---------------------------------------------------------------- guards

  /** What `popUpTo` removes on the redirect to login. */
  datatype PopTarget = PopRoute(route: string) | PopWholeGraph

  datatype GuardAction = Render | RedirectToLogin(popUpTo: PopTarget)

  /** The item-list destination: render with a user, otherwise go to login
      removing the item list itself. */
  function ItemListGuard(currentUser: Option<SignedInUser>): GuardAction {
    if currentUser.Some? then Render else RedirectToLogin(PopRoute(ItemList))
  }

  /** The add/edit destination: render with a user, otherwise go to login
      clearing the whole back stack. */
  function AddEditItemGuard(currentUser: Option<SignedInUser>): GuardAction {
    if currentUser.Some? then Render else RedirectToLogin(PopWholeGraph)
  }

  /** What the add/edit destination composes for a route: the form with the
      `itemId` argument read from the route when someone is signed in, and
      nothing otherwise. */
  function AddEditItemDestination(currentUser: Option<SignedInUser>, route: string): Option<Option<string>> {
    if AddEditItemGuard(currentUser).Render? then Some(ItemIdArgument(route)) else None
  }

  /** Both item destinations render exactly when someone is signed in and
      redirect to login otherwise; a signed-in user who follows a route built
      by AddEditItemRoute reaches the form with the id that built it, and a
      signed-out one never reaches the form. */
  lemma GuardsSpec(currentUser: Option<SignedInUser>, itemId: Option<string>)
    ensures ItemListGuard(currentUser).Render? <==> currentUser.Some?
    ensures AddEditItemGuard(currentUser).Render? <==> currentUser.Some?
    ensures ItemListGuard(currentUser).RedirectToLogin? <==> currentUser.None?
    ensures AddEditItemGuard(currentUser).RedirectToLogin? <==> currentUser.None?
    ensures currentUser.Some? ==> AddEditItemDestination(currentUser, AddEditItemRoute(itemId)) == Some(itemId)
    ensures currentUser.None? ==> AddEditItemDestination(currentUser, AddEditItemRoute(itemId)).None?
  {
    AddEditItemRouteSpec(itemId);
  }
}
