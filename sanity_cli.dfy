// The studio's deployment host name, chosen from three environment values: the
// branch host name, the production host name and the project id. A missing value
// is `None`; every test is a truthiness test, so an empty value counts as missing.

module SanityCli {
  import opened Text

  /** The branch that deploys to the production host itself. */
  const MainBranch: string := "main"

  /** `getStudioHost`. */
  function StudioHost(host: Option<string>, productionHostName: Option<string>,
                      projectId: Option<string>): (r: Option<string>)
    ensures Truthy(productionHostName) && Truthy(host) && host.value != MainBranch ==>
      r == Some(host.value + "-" + productionHostName.value)
    ensures Truthy(productionHostName) && (!Truthy(host) || host.value == MainBranch) ==>
      r == productionHostName
    ensures !Truthy(productionHostName) && Truthy(projectId) ==> r == projectId
    ensures !Truthy(productionHostName) && !Truthy(projectId) ==> r.None?
  {
    if Truthy(productionHostName) then
      if Truthy(host) && host.value != MainBranch then
        Some(host.value + "-" + productionHostName.value)
      else productionHostName
    else if Truthy(projectId) then projectId
    else None
  }

  /** A host is never the empty string, and with a production host name set it always ends with it. */
  lemma StudioHostShape(host: Option<string>, productionHostName: Option<string>, projectId: Option<string>)
    ensures var r := StudioHost(host, productionHostName, projectId);
      (r.Some? ==> r.value != "")
      && (Truthy(productionHostName) ==> r.Some? && EndsWith(r.value, productionHostName.value))
  {
    var r := StudioHost(host, productionHostName, projectId);
    if Truthy(productionHostName) {
      var p := productionHostName.value;
      if Truthy(host) && host.value != MainBranch {
        assert r.value == (host.value + "-") + p;
        assert r.value[|r.value| - |p|..] == p;
      } else {
        assert r.value[|r.value| - |p|..] == p;
      }
    }
  }

  /** An empty environment value behaves exactly as an unset one. */
  lemma EmptyIsUnset(host: Option<string>, productionHostName: Option<string>, projectId: Option<string>)
    ensures StudioHost(Some(""), productionHostName, projectId) == StudioHost(None, productionHostName, projectId)
    ensures StudioHost(host, Some(""), projectId) == StudioHost(host, None, projectId)
    ensures StudioHost(host, productionHostName, Some("")) == StudioHost(host, productionHostName, None)
  {
  }

  /** Without a production host name the branch host name plays no part. */
  lemma HostIgnoredWithoutProduction(host: Option<string>, host': Option<string>,
                                     productionHostName: Option<string>, projectId: Option<string>)
    requires !Truthy(productionHostName)
    ensures StudioHost(host, productionHostName, projectId) == StudioHost(host', productionHostName, projectId)
  {
  }
}
