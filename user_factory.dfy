// KrameriusUserFactory: turns the role names Kramerius reports for a user
// into the editor's roles.  Two role names are configured (one for editors,
// one for curators); the mapping is built with Map.of, which refuses equal
// keys.  The class exists twice, in the current and in the older package,
// with the same body.
module UserFactory {
  import opened Wrappers

  datatype Role = Editor | Curator

  datatype KrameriusUser = KrameriusUser(username: string, roles: seq<Role>, editor: bool, curator: bool)

  datatype FactoryError = DuplicateRoleName(name: string)   // IllegalArgumentException from Map.of

  predicate NoDuplicates(xs: seq<Role>)
  {
    forall i, j :: 0 <= i < j < |xs| ==> xs[i] != xs[j]
  }

  /** `roleMapping::get`: the role a Kramerius role name stands for, if any. */
  function RoleOf(name: string, editorName: string, curatorName: string): Option<Role>
  {
    if name == editorName then Some(Editor)
    else if name == curatorName then Some(Curator)
    else None
  }

  /** `.map(roleMapping::get).filter(Objects::nonNull)` */
  function MappedRoles(names: seq<string>, editorName: string, curatorName: string): (r: seq<Role>)
    ensures forall x :: x in r <==> exists i :: 0 <= i < |names| && RoleOf(names[i], editorName, curatorName) == Some(x)
  {
    if |names| == 0 then []
    else
      var rest := MappedRoles(names[..|names| - 1], editorName, curatorName);
      assert forall i :: 0 <= i < |names| - 1 ==> names[..|names| - 1][i] == names[i];
      match RoleOf(names[|names| - 1], editorName, curatorName)
      case None => rest
      case Some(x) => rest + [x]
  }

  /** `.distinct()`: each element at its first occurrence, in order. */
  function Distinct(xs: seq<Role>): (r: seq<Role>)
    ensures NoDuplicates(r)
    ensures forall x :: x in r <==> x in xs
  {
    if |xs| == 0 then []
    else
      var rest := Distinct(xs[..|xs| - 1]);
      assert forall x :: x in xs <==> x in xs[..|xs| - 1] || x == xs[|xs| - 1];
      if xs[|xs| - 1] in rest then rest else rest + [xs[|xs| - 1]]
  }

  /** KrameriusUserFactory.from */
  function From(editorName: string, curatorName: string, username: string, roleNames: seq<string>)
    : (r: Result<KrameriusUser, FactoryError>)
    ensures r.Err? <==> editorName == curatorName
    ensures r.Ok? ==> r.value.username == username && NoDuplicates(r.value.roles)
  {
    if editorName == curatorName then Err(DuplicateRoleName(editorName))
    else
      var roles := Distinct(MappedRoles(roleNames, editorName, curatorName));
      Ok(KrameriusUser(username, roles, Editor in roles, Curator in roles))
  }

  // ---------------------------------------------------------------------
  // Properties

  /**
   * The user is an editor exactly when Kramerius reported the editor role
   * name, and a curator exactly when it reported the curator role name; the
   * flags agree with the role list, and unknown names add nothing.
   */
  lemma FromFlags(editorName: string, curatorName: string, username: string, roleNames: seq<string>)
    requires editorName != curatorName
    ensures var u := From(editorName, curatorName, username, roleNames).value;
      (u.editor <==> editorName in roleNames)
      && (u.curator <==> curatorName in roleNames)
      && (u.editor <==> Editor in u.roles)
      && (u.curator <==> Curator in u.roles)
  {
    var u := From(editorName, curatorName, username, roleNames).value;
    var mapped := MappedRoles(roleNames, editorName, curatorName);
    if editorName in roleNames {
      var i :| 0 <= i < |roleNames| && roleNames[i] == editorName;
      assert RoleOf(roleNames[i], editorName, curatorName) == Some(Editor);
    }
    if curatorName in roleNames {
      var i :| 0 <= i < |roleNames| && roleNames[i] == curatorName;
      assert RoleOf(roleNames[i], editorName, curatorName) == Some(Curator);
    }
  }

  /** Role names the configuration does not know are dropped. */
  lemma FromIgnoresUnknown(editorName: string, curatorName: string, username: string,
                           roleNames: seq<string>, other: string)
    requires editorName != curatorName && other != editorName && other != curatorName
    ensures From(editorName, curatorName, username, roleNames + [other])
         == From(editorName, curatorName, username, roleNames)
  {
    assert (roleNames + [other])[..|roleNames|] == roleNames;
  }

  /** Repeating a role name does not repeat the role. */
  lemma FromRepeatedName(editorName: string, curatorName: string, username: string)
    requires editorName != curatorName
    ensures From(editorName, curatorName, username, [editorName, editorName]).value.roles == [Editor]
  {
    var names := [editorName, editorName];
    assert names[..1] == [editorName];
    assert [editorName][..0] == [];
    assert MappedRoles([editorName], editorName, curatorName) == [Editor];
    assert MappedRoles(names, editorName, curatorName) == [Editor, Editor];
    assert [Editor, Editor][..1] == [Editor];
    assert [Editor][..0] == [];
    assert Distinct([Editor]) == [Editor];
  }
}
