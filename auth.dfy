/** The client's pretend login (useAuth.ts): two browser storage items,
    the flag "isAuthenticated" and "projectName", and the redirect between
    the login page and the campaigns page that the flag decides. */
module Auth {
  import opened Js

  const FlagKey := "isAuthenticated"
  const ProjectKey := "projectName"
  const LoginPath := "/login"
  const CampaignsPath := "/campaigns"

  /** The flag is truthy when it is stored and not the empty string. */
  predicate FlagSet(flag: Option<string>) {
    flag.Some? && flag.value != ""
  }

  /** useAuthRedirect: where the page is sent, if anywhere, given the stored
      flag and the current path. */
  function Redirect(flag: Option<string>, path: string): (r: Option<string>)
    ensures r == Some(LoginPath) <==> !FlagSet(flag) && path != LoginPath
    ensures r == Some(CampaignsPath) <==> FlagSet(flag) && path == LoginPath
    ensures r.Some? ==> r == Some(LoginPath) || r == Some(CampaignsPath)
    ensures r.Some? ==> r.value != path
  {
    if !FlagSet(flag) && path != LoginPath then Some(LoginPath)
    else if FlagSet(flag) && path == LoginPath then Some(CampaignsPath)
    else None
  }

  /** A redirect lands on a page that does not redirect again. */
  lemma RedirectSettles(flag: Option<string>, path: string)
    ensures Redirect(flag, path).Some? ==> Redirect(flag, Redirect(flag, path).value).None?
  {
  }

  /** The browser's local storage. */
  class LocalStorage {
    var items: map<string, string>

    constructor(items: map<string, string>)
      ensures this.items == items
    {
      this.items := items;
    }

    /** getItem */
    function Item(key: string): (r: Option<string>)
      reads this
      ensures r.Some? <==> key in items
      ensures r.Some? ==> r.value == items[key]
    {
      if key in items then Some(items[key]) else None
    }

    /** useAuth's `isAuthenticated`: `!!getItem("isAuthenticated")`. */
    predicate IsAuthenticated()
      reads this
    {
      FlagSet(Item(FlagKey))
    }

    /** login: stores the flag "true" and the project name. */
    method Login(projectName: string)
      modifies this
      ensures items == old(items)[FlagKey := "true"][ProjectKey := projectName]
      ensures IsAuthenticated() && Item(ProjectKey) == Some(projectName)
      ensures Redirect(Item(FlagKey), LoginPath) == Some(CampaignsPath)
    {
      items := items[FlagKey := "true"];
      items := items[ProjectKey := projectName];
    }

    /** logout: removes both items. */
    method Logout()
      modifies this
      ensures items == old(items) - {FlagKey, ProjectKey}
      ensures !IsAuthenticated() && Item(ProjectKey) == None
      ensures forall path :: path != LoginPath ==> Redirect(Item(FlagKey), path) == Some(LoginPath)
    {
      items := items - {FlagKey};
      items := items - {ProjectKey};
    }
  }
}
