/** accesscontrol/jwt.go: the permissions that the claims of a token grant. */
module Permissions {
  import opened Graphs
  import opened Text

  /** A claim value as decoded from JSON. */
  datatype Value = Text(text: string) | List(items: seq<Value>) | Other

  type Claims = map<string, Value>

  type Mapping = map<string, seq<string>>

  /** The settings of the access control. A map that is not set is empty here: nothing is found in it. */
  datatype Settings = Settings(permissionsClaim: string, rolesClaim: string, rolesMap: Mapping, permissionsMap: Mapping)

  // ---------- What is granted ----------

  function Lookup(m: Mapping, key: string): seq<string> {
    if key in m then m[key] else []
  }

  /** The string values of a claim: none if one of them is not a string. */
  function ClaimValues(claims: Claims, claim: string): seq<string> {
    if claim == "" || claim !in claims then []
    else
      match claims[claim]
      case Text(s) => Split(s, ' ')
      case List(items) =>
        if forall v <- items :: v.Text? then seq(|items|, i requires 0 <= i < |items| => items[i].text) else []
      case Other => []
  }

  /** p is one of the values, after trimming. */
  predicate Among(values: seq<string>, p: string) {
    p != "" && exists v <- values :: TrimSpace(v) == p
  }

  ghost predicate ValueGrants(j: Settings, claims: Claims, p: string) {
    Among(ClaimValues(claims, j.permissionsClaim), p)
  }

  ghost predicate RoleGrants(j: Settings, claims: Claims, p: string) {
    j.rolesClaim != "" && j.rolesClaim in claims && exists r {:trigger Lookup(j.rolesMap, r)} ::
      (r == "*" || r in ClaimValues(claims, j.rolesClaim)) && Among(Lookup(j.rolesMap, r), p)
  }

  /** The claims grant p directly, by value or by role. */
  ghost predicate ClaimGrants(j: Settings, claims: Claims, p: string) {
    ValueGrants(j, claims, p) || RoleGrants(j, claims, p)
  }

  // ---------- What claims say ----------

  /** A text grants what the texts before and after a space in it grant. */
  lemma WordsGrant(j: Settings, claims: Claims, a: string, b: string, p: string)
    requires j.permissionsClaim != ""
    ensures var c := j.permissionsClaim;
            ValueGrants(j, claims[c := Text(a + " " + b)], p) <==>
              ValueGrants(j, claims[c := Text(a)], p) || ValueGrants(j, claims[c := Text(b)], p)
  {
    SplitAppend(a, b, ' ');
  }

  /** A text without a space grants itself. */
  lemma WordGrants(j: Settings, claims: Claims, s: string, p: string)
    requires j.permissionsClaim != "" && ' ' !in s
    ensures ValueGrants(j, claims[j.permissionsClaim := Text(s)], p) <==> p == TrimSpace(s) && p != ""
  {
    SplitWhole(s, ' ');
  }

  /** A list grants its members, or nothing if one of them is no text. */
  lemma ListGrants(j: Settings, claims: Claims, items: seq<Value>, p: string)
    requires j.permissionsClaim != ""
    ensures ValueGrants(j, claims[j.permissionsClaim := List(items)], p) <==>
      p != "" && (forall v <- items :: v.Text?) && exists v <- items :: v.Text? && TrimSpace(v.text) == p
  {
    ListValues(claims[j.permissionsClaim := List(items)], j.permissionsClaim, items);
  }

  lemma ListValues(claims: Claims, claim: string, items: seq<Value>)
    requires claim != "" && claim in claims && claims[claim] == List(items)
    ensures forall s :: s in ClaimValues(claims, claim) <==> (forall v <- items :: v.Text?) && Text(s) in items
  {
    var vals := ClaimValues(claims, claim);
    if forall v <- items :: v.Text? {
      forall s | Text(s) in items
        ensures s in vals
      {
        var i :| 0 <= i < |items| && items[i] == Text(s);
        assert vals[i] == s;
      }
      forall s | s in vals
        ensures Text(s) in items
      {
        var i :| 0 <= i < |vals| && vals[i] == s;
        assert items[i] in items && items[i] == Text(s);
      }
    }
  }

  /** Other values grant nothing, nor does a claim that is not there or has no name. */
  lemma NothingGranted(j: Settings, claims: Claims, p: string)
    requires var c := j.permissionsClaim; c == "" || c !in claims || claims[c].Other?
    ensures !ValueGrants(j, claims, p)
  {
  }

  /** The same for roles. */
  lemma RoleWordsGrant(j: Settings, claims: Claims, a: string, b: string, p: string)
    requires j.rolesClaim != ""
    ensures var c := j.rolesClaim;
            RoleGrants(j, claims[c := Text(a + " " + b)], p) <==>
              RoleGrants(j, claims[c := Text(a)], p) || RoleGrants(j, claims[c := Text(b)], p)
  {
    SplitAppend(a, b, ' ');
  }

  /** A role grants what it is mapped to, together with the role for everybody. */
  lemma RoleWordGrants(j: Settings, claims: Claims, s: string, p: string)
    requires j.rolesClaim != "" && ' ' !in s
    ensures RoleGrants(j, claims[j.rolesClaim := Text(s)], p) <==>
      Among(Lookup(j.rolesMap, s), p) || Among(Lookup(j.rolesMap, "*"), p)
  {
    SplitWhole(s, ' ');
  }

  /** A list of roles, of which none counts if one is no text. */
  lemma RoleListGrants(j: Settings, claims: Claims, items: seq<Value>, p: string)
    requires j.rolesClaim != ""
    ensures RoleGrants(j, claims[j.rolesClaim := List(items)], p) <==>
      || Among(Lookup(j.rolesMap, "*"), p)
      || ((forall v <- items :: v.Text?) && exists v <- items :: v.Text? && Among(Lookup(j.rolesMap, v.text), p))
  {
    var all := claims[j.rolesClaim := List(items)];
    ListValues(all, j.rolesClaim, items);
    if (forall v <- items :: v.Text?) && exists v <- items :: v.Text? && Among(Lookup(j.rolesMap, v.text), p) {
      var v :| v in items && v.Text? && Among(Lookup(j.rolesMap, v.text), p);
      assert Text(v.text) in items && v.text in ClaimValues(all, j.rolesClaim);
    }
  }

  /** Any other value leaves the role for everybody only; without the claim there is not even that. */
  lemma NoRoles(j: Settings, claims: Claims, p: string)
    requires j.rolesClaim == "" || j.rolesClaim !in claims || claims[j.rolesClaim].Other?
    ensures RoleGrants(j, claims, p) <==>
      j.rolesClaim != "" && j.rolesClaim in claims && Among(Lookup(j.rolesMap, "*"), p)
  {
  }

  // ---------- Closing under the map ----------

  /** The trimmed values, without blank ones. */
  function Cleaned(values: seq<string>): (r: seq<string>)
    ensures forall p :: p in r <==> Among(values, p)
  {
    if values == [] then []
    else
      var init, last := values[..|values| - 1], TrimSpace(values[|values| - 1]);
      assert forall v :: v in values <==> v in init || v == values[|values| - 1];
      if last == "" then Cleaned(init) else Cleaned(init) + [last]
  }

  /** Each permission leads to those that it is mapped to. */
  function MappedTo(m: Mapping): Graph {
    map k | k in m :: Cleaned(m[k])
  }

  lemma MappedEdge(m: Mapping, a: string, b: string)
    ensures Edge(MappedTo(m), a, b) <==> Among(Lookup(m, a), b)
  {
  }

  ghost predicate Granted(j: Settings, claims: Claims, p: string) {
    exists b :: ClaimGrants(j, claims, b) && Reaches(MappedTo(j.permissionsMap), b, p)
  }

  /** What is granted is closed under the map, and lies within every closed set that holds
      what the claims grant. */
  lemma GrantedIsLeast(j: Settings, claims: Claims, p: string, s: set<string>)
    requires Granted(j, claims, p)
    requires forall b :: ClaimGrants(j, claims, b) ==> b in s
    requires forall a, b :: a in s && Among(Lookup(j.permissionsMap, a), b) ==> b in s
    ensures p in s
    ensures forall b :: Among(Lookup(j.permissionsMap, p), b) ==> Granted(j, claims, b)
  {
    var g := MappedTo(j.permissionsMap);
    var b :| ClaimGrants(j, claims, b) && Reaches(g, b, p);
    forall x, y | x in s && Edge(g, x, y)
      ensures y in s
    {
      MappedEdge(j.permissionsMap, x, y);
    }
    ReachesWithin(g, b, p, s);
    forall c | Among(Lookup(j.permissionsMap, p), c)
      ensures Granted(j, claims, c)
    {
      MappedEdge(j.permissionsMap, p, c);
      ReachesEdge(g, p, c);
      ReachesTrans(g, b, p, c);
    }
  }

  /** A mapped value leads to the same permissions whether it is trimmed or not. This holds if
      all mapped values are trimmed. */
  ghost predicate Regular(m: Mapping) {
    forall k, v {:trigger v in Lookup(m, k)} :: v in Lookup(m, k) ==> Lookup(m, v) == Lookup(m, TrimSpace(v))
  }

  lemma TrimmedIsRegular(m: Mapping)
    requires forall k, v :: v in Lookup(m, k) ==> Trimmed(v)
    ensures Regular(m)
  {
    forall k, v | v in Lookup(m, k)
      ensures Lookup(m, v) == Lookup(m, TrimSpace(v))
    {
      TrimSpaceTrims(v);
    }
  }

  // ---------- The program ----------

  /** Adding a value leaves its trimmed form at the end, unless it is blank or already there. */
  function Added(permissions: seq<string>, permission: string): seq<string> {
    var p := TrimSpace(permission);
    if p == "" || p in permissions then permissions else permissions + [p]
  }

  function AddedAll(permissions: seq<string>, values: seq<string>): seq<string>
    decreases |values|
  {
    if values == [] then permissions else AddedAll(Added(permissions, values[0]), values[1..])
  }

  lemma {:induction false} AddedAllIs(permissions: seq<string>, values: seq<string>)
    ensures permissions <= AddedAll(permissions, values)
    ensures NoDup(permissions) ==> NoDup(AddedAll(permissions, values))
    ensures forall p :: p in AddedAll(permissions, values) <==> p in permissions || Among(values, p)
    decreases |values|
  {
    if values != [] {
      AddedAllIs(Added(permissions, values[0]), values[1..]);
      assert forall v :: v in values <==> v == values[0] || v in values[1..];
    }
  }

  method AddPermission(permissions: seq<string>, permission: string) returns (r: seq<string>, added: bool)
    ensures r == Added(permissions, permission)
    ensures added <==> !Blank(permission) && TrimSpace(permission) !in permissions
  {
    var p := TrimSpace(permission);
    if p == "" {
      return permissions, false;
    }
    for i := 0 to |permissions|
      invariant p !in permissions[..i]
    {
      if permissions[i] == p {
        return permissions, false;
      }
    }
    assert permissions[..|permissions|] == permissions;
    return permissions + [p], true;
  }

  method AddEach(permissions: seq<string>, values: seq<string>) returns (r: seq<string>)
    ensures r == AddedAll(permissions, values)
  {
    r := permissions;
    for i := 0 to |values|
      invariant AddedAll(r, values[i..]) == AddedAll(permissions, values)
    {
      assert values[i..][0] == values[i] && values[i..][1..] == values[i + 1..];
      var added;
      r, added := AddPermission(r, values[i]);
    }
  }

  /** The values of a list, if all of them are strings. */
  method Strings(items: seq<Value>) returns (ok: bool, vals: seq<string>)
    ensures ok <==> forall v <- items :: v.Text?
    ensures ok ==> vals == seq(|items|, i requires 0 <= i < |items| && items[i].Text? => items[i].text)
  {
    vals := [];
    for i := 0 to |items|
      invariant |vals| == i && forall k :: 0 <= k < i ==> items[k].Text? && vals[k] == items[k].text
    {
      if !items[i].Text? {
        assert items[i] in items;
        return false, [];
      }
      vals := vals + [items[i].text];
    }
    ok := true;
  }

  method AddPermissionsFromPermissionsClaim(j: Settings, claims: Claims,
                                            permissions: seq<string>) returns (r: seq<string>)
    ensures r == AddedAll(permissions, ClaimValues(claims, j.permissionsClaim))
  {
    if j.permissionsClaim == "" || j.permissionsClaim !in claims {
      return permissions;
    }
    match claims[j.permissionsClaim]
    case List(items) =>
      var ok, vals := Strings(items);
      if !ok {
        return permissions;
      }
      assert vals == ClaimValues(claims, j.permissionsClaim);
      r := AddEach(permissions, vals);
    case Text(s) =>
      r := AddEach(permissions, Split(s, ' '));
    case Other =>
      r := permissions;
  }

  method GetRoleValues(v: Value) returns (r: seq<string>)
    ensures forall claims: Claims, c: string :: c != "" && c in claims && claims[c] == v ==> r == ClaimValues(claims, c)
  {
    match v
    case List(items) =>
      var ok, vals := Strings(items);
      r := if ok then vals else [];
    case Text(s) =>
      r := Split(s, ' ');
    case Other =>
      r := [];
  }

  /** The permissions of each role are added in turn. */
  function AddedRoles(permissions: seq<string>, m: Mapping, roles: seq<string>): seq<string>
    decreases |roles|
  {
    if roles == [] then permissions else AddedRoles(AddedAll(permissions, Lookup(m, roles[0])), m, roles[1..])
  }

  lemma {:induction false} AddedRolesIs(permissions: seq<string>, m: Mapping, roles: seq<string>)
    ensures permissions <= AddedRoles(permissions, m, roles)
    ensures NoDup(permissions) ==> NoDup(AddedRoles(permissions, m, roles))
    ensures forall p :: p in AddedRoles(permissions, m, roles) <==>
                        p in permissions || exists r {:trigger Lookup(m, r)} :: r in roles && Among(Lookup(m, r), p)
    decreases |roles|
  {
    if roles != [] {
      AddedAllIs(permissions, Lookup(m, roles[0]));
      AddedRolesIs(AddedAll(permissions, Lookup(m, roles[0])), m, roles[1..]);
      assert forall r :: r in roles <==> r == roles[0] || r in roles[1..];
    }
  }

  method AddPermissionsFromRoles(j: Settings, claims: Claims, permissions: seq<string>) returns (r: seq<string>)
    ensures r == if j.rolesClaim == "" || j.rolesClaim !in claims then permissions
                 else AddedRoles(permissions, j.rolesMap, ClaimValues(claims, j.rolesClaim) + ["*"])
  {
    if j.rolesClaim == "" || j.rolesClaim !in claims {
      return permissions;
    }
    var roleValues := GetRoleValues(claims[j.rolesClaim]);
    ghost var all := roleValues + ["*"];
    r := permissions;
    for i := 0 to |roleValues|
      invariant AddedRoles(r, j.rolesMap, all[i..]) == AddedRoles(permissions, j.rolesMap, all)
    {
      assert all[i..][0] == roleValues[i] && all[i..][1..] == all[i + 1..];
      if roleValues[i] in j.rolesMap {
        r := AddEach(r, j.rolesMap[roleValues[i]]);
      }
    }
    assert all[|roleValues|..] == ["*"];
    if "*" in j.rolesMap {
      r := AddEach(r, j.rolesMap["*"]);
    }
  }

  // ---------- Mapped permissions ----------

  /** All that the map can add. */
  ghost function Universe(m: Mapping): set<string> {
    set k, v | k in m && v in m[k] :: TrimSpace(v)
  }

  /** What remains to be added. */
  ghost function Missing(m: Mapping, list: seq<string>): set<string> {
    set p | p in Universe(m) && p !in list
  }

  /** The spellings of those values that are new to the list. */
  function NewValues(list: seq<string>, values: seq<string>): seq<string>
    decreases |values|
  {
    if values == [] then []
    else
      var more := Added(list, values[0]);
      (if more == list then [] else [values[0]]) + NewValues(more, values[1..])
  }

  lemma {:induction false} NewValuesAre(list: seq<string>, values: seq<string>)
    ensures NewlyAdded(list, values, AddedAll(list, values), NewValues(list, values))
    decreases |values|
  {
    if values != [] {
      var more, v := Added(list, values[0]), values[0];
      NewValuesAre(more, values[1..]);
      assert forall x :: x in values <==> x == v || x in values[1..];
      var l, rest := NewValues(list, values), NewValues(more, values[1..]);
      assert forall x :: x in l <==> x in rest || (x == v && more != list);
      assert more != list ==> more[|list|] == TrimSpace(v);
    }
  }

  /** No two of the values spell the same permission. */
  ghost predicate SpellOnce(l: seq<string>) {
    forall v, w {:trigger v in l, w in l} :: v in l && w in l && TrimSpace(v) == TrimSpace(w) ==> v == w
  }

  lemma {:induction false} NewValuesSpellOnce(list: seq<string>, values: seq<string>)
    ensures SpellOnce(NewValues(list, values))
    decreases |values|
  {
    if values != [] {
      var more, v := Added(list, values[0]), values[0];
      NewValuesSpellOnce(more, values[1..]);
      NewValuesAre(more, values[1..]);
      assert more != list ==> more[|list|] == TrimSpace(v) && TrimSpace(v) in more;
      var l, rest := NewValues(list, values), NewValues(more, values[1..]);
      assert forall x :: x in l <==> x in rest || (x == v && more != list);
    }
  }

  /** r holds the list and the values, and l is a spelling of each new permission. */
  ghost predicate NewlyAdded(list: seq<string>, values: seq<string>, r: seq<string>, l: seq<string>) {
    && list <= r && (l == [] ==> r == list)
    && (forall p :: p in r <==> p in list || Among(values, p))
    && (forall v :: v in l ==> v in values && TrimSpace(v) != "" && TrimSpace(v) in r && TrimSpace(v) !in list)
    && (forall p :: p in r && p !in list ==> exists v :: v in l && TrimSpace(v) == p)
  }

  /** The list, extended by what the source permissions are mapped to, depth first. */
  ghost function Mapped(m: Mapping, source: seq<string>, list: seq<string>): (r: seq<string>)
    ensures list <= r
    decreases Missing(m, list), |source|, 1
  {
    if source == [] then list
    else
      var more := if source[0] in m then MappedBelow(m, source[0], list) else list;
      assert Missing(m, more) <= Missing(m, list);
      Mapped(m, source[1..], more)
  }

  /** The list, extended by the values for one permission, and then by what these are mapped to. */
  ghost function MappedBelow(m: Mapping, val: string, list: seq<string>): (r: seq<string>)
    requires val in m
    ensures list <= r
    decreases Missing(m, list), 1, 0
  {
    var more, l := AddedAll(list, m[val]), NewValues(list, m[val]);
    NewValuesAre(list, m[val]);
    assert l != [] ==> TrimSpace(l[0]) in Missing(m, list) && TrimSpace(l[0]) !in Missing(m, more);
    Mapped(m, l, more)
  }

  // ---------- Every mapped permission, and nothing else ----------

  /** The value by which each permission was found. */
  type Spellings = map<string, string>

  /** Each permission leads to what its spelling is mapped to. */
  function SpelledGraph(m: Mapping, s: Spellings): Graph {
    map p | p in s :: Cleaned(Lookup(m, s[p]))
  }

  lemma SpelledEdge(m: Mapping, s: Spellings, a: string, b: string)
    ensures Edge(SpelledGraph(m, s), a, b) <==> a in s && Among(Lookup(m, s[a]), b)
  {
  }

  ghost predicate Within(s: Spellings, t: Spellings) {
    forall p {:trigger t[p]} {:trigger s[p]} :: p in s ==> p in t && t[p] == s[p]
  }

  /** p is mapped to by one of the source values, or reached from such a permission. */
  ghost predicate Derived(m: Mapping, s: Spellings, source: seq<string>, p: string) {
    exists v, d {:trigger Among(Lookup(m, v), d)} ::
      v in source && Among(Lookup(m, v), d) && Reaches(SpelledGraph(m, s), d, p)
  }

  /** The spelling of p is in the map, for one of the source values or for the spelling of another
      permission. */
  ghost predicate FoundAs(m: Mapping, s: Spellings, source: seq<string>, p: string) {
    && p in s && TrimSpace(s[p]) == p
    && ((exists v :: v in source && s[p] in Lookup(m, v)) || (exists q :: q in s && s[p] in Lookup(m, s[q])))
  }

  /** Everything that v is mapped to is in the list. */
  ghost predicate Expanded(m: Mapping, v: string, list: seq<string>) {
    forall p {:trigger Among(Lookup(m, v), p)} :: Among(Lookup(m, v), p) ==> p in list
  }

  ghost predicate AllExpanded(m: Mapping, source: seq<string>, list: seq<string>) {
    forall v {:trigger v in source} :: v in source ==> Expanded(m, v, list)
  }

  ghost predicate Grows(m: Mapping, source: seq<string>, more: seq<string>, s: Spellings, p: string) {
    FoundAs(m, s, source, p) && Expanded(m, s[p], more) && Derived(m, s, source, p)
  }

  /** list was extended by the permissions in s, which are expanded and derived from the source. */
  ghost predicate Grown(m: Mapping, source: seq<string>, list: seq<string>, more: seq<string>, s: Spellings) {
    && list <= more && (NoDup(list) ==> NoDup(more))
    && (forall p {:trigger p in s} {:trigger p in more} :: p in s <==> p in more && p !in list)
    && (forall p {:trigger Grows(m, source, more, s, p)} :: p in s ==> Grows(m, source, more, s, p))
  }

  /** Whatever the map, each new permission has a spelling, by which it was found and is looked up. */
  lemma {:induction false} MappedGrows(m: Mapping, source: seq<string>, list: seq<string>) returns (s: Spellings)
    ensures Grown(m, source, list, Mapped(m, source, list), s) && AllExpanded(m, source, Mapped(m, source, list))
    decreases Missing(m, list), |source|, 1
  {
    s := map[];
    if source != [] {
      var v := source[0];
      var more := if v in m then MappedBelow(m, v, list) else list;
      if v in m {
        s := MappedBelowGrows(m, v, list);
      }
      assert Missing(m, more) <= Missing(m, list);
      var t := MappedGrows(m, source[1..], more);
      GrownTwice(m, v, source[1..], list, more, Mapped(m, source[1..], more), s, t);
      s := s + t;
      assert source == [v] + source[1..];
    }
  }

  lemma {:induction false} MappedBelowGrows(m: Mapping, val: string, list: seq<string>) returns (s: Spellings)
    requires val in m
    ensures Grown(m, [val], list, MappedBelow(m, val, list), s) && Expanded(m, val, MappedBelow(m, val, list))
    decreases Missing(m, list), 1, 0
  {
    var more, l := AddedAll(list, m[val]), NewValues(list, m[val]);
    NewValuesAre(list, m[val]);
    NewValuesSpellOnce(list, m[val]);
    AddedAllIs(list, m[val]);
    assert l != [] ==> TrimSpace(l[0]) in Missing(m, list) && TrimSpace(l[0]) !in Missing(m, more);
    var t := MappedGrows(m, l, more);
    s := GrownBelow(m, val, l, list, more, Mapped(m, l, more), t);
  }

  lemma ExpandedMore(m: Mapping, v: string, list: seq<string>, more: seq<string>)
    requires Expanded(m, v, list) && list <= more
    ensures Expanded(m, v, more)
  {
  }

  lemma DerivedMore(m: Mapping, s: Spellings, t: Spellings, source: seq<string>, all: seq<string>, p: string)
    requires Derived(m, s, source, p) && Within(s, t) && forall v :: v in source ==> v in all
    ensures Derived(m, t, all, p)
  {
    var v, d :| v in source && Among(Lookup(m, v), d) && Reaches(SpelledGraph(m, s), d, p);
    forall x, y | Edge(SpelledGraph(m, s), x, y)
      ensures Edge(SpelledGraph(m, t), x, y)
    {
      SpelledEdge(m, s, x, y);
      SpelledEdge(m, t, x, y);
    }
    ReachesMonotone(SpelledGraph(m, s), SpelledGraph(m, t), d, p);
  }

  lemma GrowsMore(m: Mapping, s: Spellings, t: Spellings, source: seq<string>, all: seq<string>, list: seq<string>,
                  more: seq<string>, p: string)
    requires Grows(m, source, list, s, p) && Within(s, t) && list <= more && forall v :: v in source ==> v in all
    ensures Grows(m, all, more, t, p)
  {
    ExpandedMore(m, s[p], list, more);
    DerivedMore(m, s, t, source, all, p);
    if q :| q in s && s[p] in Lookup(m, s[q]) {
      assert q in t && t[p] in Lookup(m, t[q]);
    }
  }

  lemma GrownTwice(m: Mapping, v: string, source: seq<string>, list: seq<string>, mid: seq<string>, more: seq<string>,
                   s: Spellings, t: Spellings)
    requires (Grown(m, [v], list, mid, s) && Expanded(m, v, mid)) || (mid == list && s == map[] && v !in m)
    requires Grown(m, source, mid, more, t) && AllExpanded(m, source, more)
    ensures Grown(m, [v] + source, list, more, s + t) && AllExpanded(m, [v] + source, more)
  {
    forall p | p in s + t
      ensures Grows(m, [v] + source, more, s + t, p)
    {
      if p in t {
        GrowsMore(m, t, s + t, source, [v] + source, more, more, p);
      } else {
        assert Grows(m, [v], mid, s, p);
        GrowsMore(m, s, s + t, [v], [v] + source, mid, more, p);
      }
    }
    if v in m {
      ExpandedMore(m, v, mid, more);
    }
  }

  ghost function SpellingIn(l: seq<string>, p: string): (v: string)
    requires exists v :: v in l && TrimSpace(v) == p
    ensures v in l && TrimSpace(v) == p
  {
    var v :| v in l && TrimSpace(v) == p;
    v
  }

  lemma GrownBelow(m: Mapping, val: string, l: seq<string>, target: seq<string>, mid: seq<string>, r: seq<string>,
                   t: Spellings)
    returns (s: Spellings)
    requires NewlyAdded(target, Lookup(m, val), mid, l) && SpellOnce(l) && (NoDup(target) ==> NoDup(mid))
    requires Grown(m, l, mid, r, t) && AllExpanded(m, l, r)
    ensures Grown(m, [val], target, r, s) && Expanded(m, val, r)
  {
    var own: Spellings := map p | p in mid && p !in target :: SpellingIn(l, p);
    s := own + t;
    assert Within(own, s) && Within(t, s);
    forall p | p in s
      ensures Grows(m, [val], r, s, p)
    {
      if p in own {
        assert s[p] in Lookup(m, val) && Among(Lookup(m, val), p);
        ReachesSelf(SpelledGraph(m, s), p);
      } else {
        assert Grows(m, l, r, t, p);
        GrowsBelow(m, val, l, r, own, t, s, p);
      }
    }
  }

  /** What was found below the new values was found below val. */
  lemma GrowsBelow(m: Mapping, val: string, l: seq<string>, r: seq<string>, own: Spellings, t: Spellings, s: Spellings,
                   p: string)
    requires Grows(m, l, r, t, p) && Within(own, s) && Within(t, s)
    requires forall v :: v in l ==>
      v in Lookup(m, val) && TrimSpace(v) != "" && TrimSpace(v) in own && own[TrimSpace(v)] == v
    ensures Grows(m, [val], r, s, p)
  {
    DerivedMore(m, t, s, l, l, p);
    var v, d :| v in l && Among(Lookup(m, v), d) && Reaches(SpelledGraph(m, s), d, p);
    var c := TrimSpace(v);
    SpelledEdge(m, s, c, d);
    ReachesEdge(SpelledGraph(m, s), c, d);
    ReachesTrans(SpelledGraph(m, s), c, d, p);
    assert Among(Lookup(m, val), c);
    if w :| w in l && t[p] in Lookup(m, w) {
      assert s[TrimSpace(w)] == w && s[p] in Lookup(m, s[TrimSpace(w)]);
    } else {
      var q :| q in t && t[p] in Lookup(m, t[q]);
      assert q in s && s[p] in Lookup(m, s[q]);
    }
  }

  /** The claims grant these permissions, in this order. */
  function FromClaims(j: Settings, claims: Claims): seq<string> {
    var fromValues := AddedAll([], ClaimValues(claims, j.permissionsClaim));
    if j.rolesClaim == "" || j.rolesClaim !in claims then fromValues
    else AddedRoles(fromValues, j.rolesMap, ClaimValues(claims, j.rolesClaim) + ["*"])
  }

  lemma FromClaimsIs(j: Settings, claims: Claims)
    ensures NoDup(FromClaims(j, claims))
    ensures forall p :: p in FromClaims(j, claims) <==> ClaimGrants(j, claims, p)
  {
    var fromValues := AddedAll([], ClaimValues(claims, j.permissionsClaim));
    AddedAllIs([], ClaimValues(claims, j.permissionsClaim));
    var roles := ClaimValues(claims, j.rolesClaim) + ["*"];
    AddedRolesIs(fromValues, j.rolesMap, roles);
    assert forall r :: r in roles <==> r == "*" || r in ClaimValues(claims, j.rolesClaim);
  }

  ghost function AllGranted(j: Settings, claims: Claims): seq<string> {
    Mapped(j.permissionsMap, FromClaims(j, claims), FromClaims(j, claims))
  }

  /** p is granted directly, or reached from such a permission in g. */
  ghost predicate GrantedIn(j: Settings, claims: Claims, g: Graph, p: string) {
    exists b :: ClaimGrants(j, claims, b) && Reaches(g, b, p)
  }

  /** s has a spelling for every permission in the list. What the claims grant directly is spelled
      as it is; all others are spelled as they were found in the map. */
  ghost predicate Finds(j: Settings, claims: Claims, s: Spellings) {
    && s.Keys == Elems(AllGranted(j, claims))
    && forall p :: p in s ==>
        if ClaimGrants(j, claims, p) then s[p] == p
        else TrimSpace(s[p]) == p && exists q :: q in s && s[p] in Lookup(j.permissionsMap, s[q])
  }

  /** For any claims and any map: the list begins with what the claims grant, has no duplicates,
      and holds exactly what is reached from there when each permission is looked up by the
      spelling with which it was found. */
  lemma GrantedBySpelling(j: Settings, claims: Claims) returns (s: Spellings)
    ensures FromClaims(j, claims) <= AllGranted(j, claims) && NoDup(AllGranted(j, claims)) && Finds(j, claims, s)
    ensures forall p :: p in s ==> Expanded(j.permissionsMap, s[p], AllGranted(j, claims))
    ensures ReachedBy(j, claims, SpelledGraph(j.permissionsMap, s))
  {
    var m, base, all := j.permissionsMap, FromClaims(j, claims), AllGranted(j, claims);
    FromClaimsIs(j, claims);
    var t := MappedGrows(m, base, base);
    var own: Spellings := map b | b in base :: b;
    s := own + t;
    assert Within(own, s) && Within(t, s);
    forall p | p in s
      ensures p in t ==> Grows(m, base, all, s, p)
      ensures Expanded(m, s[p], all)
    {
      if p in t {
        GrowsMore(m, t, s, base, base, all, all, p);
      }
    }
    FoundIsGranted(j, claims, s, t);
    ListedIsGranted(j, claims, s, t);
  }

  lemma FoundIsGranted(j: Settings, claims: Claims, s: Spellings, t: Spellings)
    requires forall p {:trigger p in s} :: p in s <==> p in AllGranted(j, claims)
    requires forall p {:trigger p in t} :: p in t <==> p in s && !ClaimGrants(j, claims, p)
    requires forall p {:trigger s[p]} :: p in s ==>
      if p in t then FoundAs(j.permissionsMap, s, FromClaims(j, claims), p) else s[p] == p
    requires FromClaims(j, claims) <= AllGranted(j, claims)
    ensures Finds(j, claims, s)
  {
    FromClaimsIs(j, claims);
    forall p | p in t
      ensures exists q :: q in s && s[p] in Lookup(j.permissionsMap, s[q])
    {
      if v :| v in FromClaims(j, claims) && s[p] in Lookup(j.permissionsMap, v) {
        assert v in s && s[v] == v;
      }
    }
  }

  lemma ListedIsGranted(j: Settings, claims: Claims, s: Spellings, t: Spellings)
    requires s.Keys == Elems(AllGranted(j, claims)) && forall p :: p in s && p !in t ==> ClaimGrants(j, claims, p)
    requires forall p :: ClaimGrants(j, claims, p) ==> p in s && s[p] == p
    requires forall p :: p in s ==> Expanded(j.permissionsMap, s[p], AllGranted(j, claims))
    requires forall p :: p in s && p in t ==> Derived(j.permissionsMap, s, FromClaims(j, claims), p)
    ensures forall p :: p in AllGranted(j, claims) <==> GrantedIn(j, claims, SpelledGraph(j.permissionsMap, s), p)
  {
    var m, all := j.permissionsMap, AllGranted(j, claims);
    var g := SpelledGraph(m, s);
    FromClaimsIs(j, claims);
    forall p | p in all
      ensures GrantedIn(j, claims, g, p)
    {
      assert p in s;
      if p in t {
        var v, d :| v in FromClaims(j, claims) && Among(Lookup(m, v), d) && Reaches(g, d, p);
        SpelledEdge(m, s, v, d);
        ReachesEdge(g, v, d);
        ReachesTrans(g, v, d, p);
      } else {
        ReachesSelf(g, p);
      }
    }
    forall p | GrantedIn(j, claims, g, p)
      ensures p in all
    {
      var b :| ClaimGrants(j, claims, b) && Reaches(g, b, p);
      forall x, y | x in s.Keys && Edge(g, x, y)
        ensures y in s.Keys
      {
        SpelledEdge(m, s, x, y);
        assert Expanded(m, s[x], all);
      }
      ReachesWithin(g, b, p, s.Keys);
    }
  }

  /** In g, a permission leads to what its spelling v is mapped to. */
  ghost predicate LeadsAs(m: Mapping, g: Graph, p: string, v: string) {
    forall d {:trigger Among(Lookup(m, v), d)} {:trigger Edge(g, p, d)} :: Among(Lookup(m, v), d) <==> Edge(g, p, d)
  }

  /** In g, every permission leads to what its spellings in the map are mapped to. Those that the
      claims grant are never looked up by another spelling. */
  ghost predicate Spelled(j: Settings, claims: Claims, g: Graph) {
    && (forall b {:trigger ClaimGrants(j, claims, b)} ::
          ClaimGrants(j, claims, b) ==> LeadsAs(j.permissionsMap, g, b, b))
    && (forall k, v {:trigger v in Lookup(j.permissionsMap, k)} ::
          v in Lookup(j.permissionsMap, k) && TrimSpace(v) != "" && !ClaimGrants(j, claims, TrimSpace(v)) ==>
            LeadsAs(j.permissionsMap, g, TrimSpace(v), v))
  }

  /** The list holds exactly what is reached in a graph that leads on by the spellings in the map. */
  lemma GrantedAsSpelled(j: Settings, claims: Claims, g: Graph)
    requires Spelled(j, claims, g)
    ensures forall p :: p in AllGranted(j, claims) <==> GrantedIn(j, claims, g, p)
  {
    var m, all := j.permissionsMap, AllGranted(j, claims);
    var s := GrantedBySpelling(j, claims);
    FromClaimsIs(j, claims);
    forall x | x in s
      ensures LeadsAs(m, g, x, s[x])
    {
      ListedNotBlank(j, claims, s, x);
    }
    forall p
      ensures p in all <==> GrantedIn(j, claims, g, p)
    {
      if p in all {
        SpelledReaches(j, claims, g, s, p);
      }
      if GrantedIn(j, claims, g, p) {
        ReachedIsListed(j, claims, g, s, p);
      }
    }
  }

  lemma SpelledReaches(j: Settings, claims: Claims, g: Graph, s: Spellings, p: string)
    requires GrantedIn(j, claims, SpelledGraph(j.permissionsMap, s), p)
    requires forall x {:trigger s[x]} :: x in s ==> LeadsAs(j.permissionsMap, g, x, s[x])
    ensures GrantedIn(j, claims, g, p)
  {
    var h := SpelledGraph(j.permissionsMap, s);
    var b :| ClaimGrants(j, claims, b) && Reaches(h, b, p);
    forall x, y | Edge(h, x, y)
      ensures Edge(g, x, y)
    {
      SpelledEdge(j.permissionsMap, s, x, y);
      assert LeadsAs(j.permissionsMap, g, x, s[x]);
    }
    ReachesMonotone(h, g, b, p);
  }

  lemma ReachedIsListed(j: Settings, claims: Claims, g: Graph, s: Spellings, p: string)
    requires GrantedIn(j, claims, g, p) && s.Keys == Elems(AllGranted(j, claims))
    requires FromClaims(j, claims) <= AllGranted(j, claims)
    requires forall x {:trigger s[x]} :: x in s ==>
      LeadsAs(j.permissionsMap, g, x, s[x]) && Expanded(j.permissionsMap, s[x], AllGranted(j, claims))
    ensures p in AllGranted(j, claims)
  {
    var all := AllGranted(j, claims);
    var b :| ClaimGrants(j, claims, b) && Reaches(g, b, p);
    FromClaimsIs(j, claims);
    forall x, y | x in s.Keys && Edge(g, x, y)
      ensures y in s.Keys
    {
      assert LeadsAs(j.permissionsMap, g, x, s[x]) && Expanded(j.permissionsMap, s[x], all);
    }
    assert b in FromClaims(j, claims) && b in all && b in s;
    ReachesWithin(g, b, p, s.Keys);
  }

  lemma ListedNotBlank(j: Settings, claims: Claims, s: Spellings, x: string)
    requires GrantedIn(j, claims, SpelledGraph(j.permissionsMap, s), x)
    ensures x != ""
  {
    var g := SpelledGraph(j.permissionsMap, s);
    var b :| ClaimGrants(j, claims, b) && Reaches(g, b, x);
    var p :| PathFromTo(g, p, b, x);
    if |p| > 1 {
      assert Edge(g, p[|p| - 2], p[|p| - 1]);
      SpelledEdge(j.permissionsMap, s, p[|p| - 2], x);
    }
  }

  /** The list begins with what the claims grant, has no duplicates and, for a regular map,
      holds exactly the permissions that are granted. */
  lemma AllGrantedIs(j: Settings, claims: Claims)
    ensures FromClaims(j, claims) <= AllGranted(j, claims) && NoDup(AllGranted(j, claims))
    ensures forall p :: ClaimGrants(j, claims, p) ==>
      p in AllGranted(j, claims) && Expanded(j.permissionsMap, p, AllGranted(j, claims))
    ensures Regular(j.permissionsMap) ==> forall p :: p in AllGranted(j, claims) <==> Granted(j, claims, p)
  {
    var s := GrantedBySpelling(j, claims);
    FromClaimsIs(j, claims);
    forall p | ClaimGrants(j, claims, p)
      ensures p in AllGranted(j, claims) && Expanded(j.permissionsMap, p, AllGranted(j, claims))
    {
      assert p in FromClaims(j, claims) && p in AllGranted(j, claims) && p in s && s[p] == p;
    }
    if Regular(j.permissionsMap) {
      RegularIsSpelled(j, claims);
      GrantedAsSpelled(j, claims, MappedTo(j.permissionsMap));
      assert forall p :: GrantedIn(j, claims, MappedTo(j.permissionsMap), p) <==> Granted(j, claims, p);
    }
  }

  lemma RegularIsSpelled(j: Settings, claims: Claims)
    requires Regular(j.permissionsMap)
    ensures Spelled(j, claims, MappedTo(j.permissionsMap))
  {
    var m := j.permissionsMap;
    forall p, v | Lookup(m, v) == Lookup(m, p)
      ensures LeadsAs(m, MappedTo(m), p, v)
    {
      forall d
        ensures Among(Lookup(m, v), d) <==> Edge(MappedTo(m), p, d)
      {
        MappedEdge(m, p, d);
      }
    }
  }

  ghost predicate LeadsWell(j: Settings, claims: Claims, g: Graph, p: string, d: string) {
    Granted(j, claims, p) && Edge(g, p, d) ==> Granted(j, claims, d)
  }

  /** Whatever a permission that should be granted leads to in g should be granted. */
  ghost predicate AllLeadWell(j: Settings, claims: Claims, g: Graph) {
    forall p, d {:trigger LeadsWell(j, claims, g, p, d)} :: LeadsWell(j, claims, g, p, d)
  }

  /** The list is right about p. */
  ghost predicate ExactAt(j: Settings, claims: Claims, p: string) {
    p in AllGranted(j, claims) <==> Granted(j, claims, p)
  }

  ghost predicate Exact(j: Settings, claims: Claims) {
    forall p {:trigger ExactAt(j, claims, p)} :: ExactAt(j, claims, p)
  }

  lemma GrantedIsListed(j: Settings, claims: Claims, all: seq<string>, p: string)
    requires AllExpanded(j.permissionsMap, all, all) && Granted(j, claims, p)
    requires forall b :: ClaimGrants(j, claims, b) ==> b in all
    ensures p in all
  {
    forall a, b | a in Elems(all) && Among(Lookup(j.permissionsMap, a), b)
      ensures b in Elems(all)
    {
      assert Expanded(j.permissionsMap, a, all);
    }
    GrantedIsLeast(j, claims, p, Elems(all));
  }

  lemma ReachedIsGranted(j: Settings, claims: Claims, g: Graph, p: string)
    requires AllLeadWell(j, claims, g) && GrantedIn(j, claims, g, p)
    ensures Granted(j, claims, p)
  {
    var b :| ClaimGrants(j, claims, b) && Reaches(g, b, p);
    ReachesSelf(MappedTo(j.permissionsMap), b);
    var path :| PathFromTo(g, path, b, p);
    var kept := x => Granted(j, claims, x);
    forall x, y | kept(x) && Edge(g, x, y)
      ensures kept(y)
    {
      assert LeadsWell(j, claims, g, x, y);
    }
    PathKeeps(g, path, |path| - 1, kept);
  }

  lemma ReachedNext(j: Settings, claims: Claims, g: Graph, p: string, d: string)
    requires GrantedIn(j, claims, g, p) && Edge(g, p, d)
    ensures GrantedIn(j, claims, g, d)
  {
    var b :| ClaimGrants(j, claims, b) && Reaches(g, b, p);
    ReachesEdge(g, p, d);
    ReachesTrans(g, b, p, d);
  }

  lemma MappedIsGranted(j: Settings, claims: Claims, p: string, b: string)
    requires Granted(j, claims, p) && Among(Lookup(j.permissionsMap, p), b)
    ensures Granted(j, claims, b)
  {
    var g := MappedTo(j.permissionsMap);
    var a :| ClaimGrants(j, claims, a) && Reaches(g, a, p);
    MappedEdge(j.permissionsMap, p, b);
    ReachesEdge(g, p, b);
    ReachesTrans(g, a, p, b);
  }

  /** The list holds what g reaches. */
  ghost predicate ReachedBy(j: Settings, claims: Claims, g: Graph) {
    forall p {:trigger GrantedIn(j, claims, g, p)} {:trigger p in AllGranted(j, claims)} ::
      p in AllGranted(j, claims) <==> GrantedIn(j, claims, g, p)
  }

  lemma ExactLeadsWell(j: Settings, claims: Claims, g: Graph)
    requires ReachedBy(j, claims, g) && Exact(j, claims)
    ensures AllLeadWell(j, claims, g)
  {
    forall p, d
      ensures LeadsWell(j, claims, g, p, d)
    {
      if Granted(j, claims, p) && Edge(g, p, d) {
        assert ExactAt(j, claims, p) && ExactAt(j, claims, d);
        ReachedNext(j, claims, g, p, d);
      }
    }
  }

  lemma ExactIsExpanded(j: Settings, claims: Claims)
    requires Exact(j, claims)
    ensures AllExpanded(j.permissionsMap, AllGranted(j, claims), AllGranted(j, claims))
  {
    forall p, b | p in AllGranted(j, claims) && Among(Lookup(j.permissionsMap, p), b)
      ensures b in AllGranted(j, claims)
    {
      assert ExactAt(j, claims, p) && ExactAt(j, claims, b);
      MappedIsGranted(j, claims, p, b);
    }
  }

  lemma WellIsExactAt(j: Settings, claims: Claims, g: Graph, all: seq<string>, p: string)
    requires all == AllGranted(j, claims) && (p in all <==> GrantedIn(j, claims, g, p))
    requires AllExpanded(j.permissionsMap, all, all) && AllLeadWell(j, claims, g)
    requires forall b :: ClaimGrants(j, claims, b) ==> b in all
    ensures ExactAt(j, claims, p)
  {
    if GrantedIn(j, claims, g, p) {
      ReachedIsGranted(j, claims, g, p);
    }
    if Granted(j, claims, p) {
      GrantedIsListed(j, claims, all, p);
    }
  }

  lemma WellIsExact(j: Settings, claims: Claims, g: Graph)
    requires ReachedBy(j, claims, g) && AllLeadWell(j, claims, g)
    requires AllExpanded(j.permissionsMap, AllGranted(j, claims), AllGranted(j, claims))
    ensures Exact(j, claims)
  {
    var all := AllGranted(j, claims);
    AllGrantedIs(j, claims);
    forall p
      ensures ExactAt(j, claims, p)
    {
      assert p in all <==> GrantedIn(j, claims, g, p);
      WellIsExactAt(j, claims, g, all, p);
    }
  }

  /** For any map: the list holds exactly what should be granted if and only if every permission
      in it has its own mappings there, and those that should be granted lead only to such by the
      spellings with which they were found. */
  lemma ExactIff(j: Settings, claims: Claims, g: Graph)
    requires ReachedBy(j, claims, g)
    ensures Exact(j, claims) <==>
      AllExpanded(j.permissionsMap, AllGranted(j, claims), AllGranted(j, claims)) && AllLeadWell(j, claims, g)
  {
    if Exact(j, claims) {
      ExactLeadsWell(j, claims, g);
      ExactIsExpanded(j, claims);
    } else if AllExpanded(j.permissionsMap, AllGranted(j, claims), AllGranted(j, claims)) && AllLeadWell(j, claims, g) {
      WellIsExact(j, claims, g);
    }
  }

  // ---------- Maps with untrimmed values ----------

  /** Each permission is spelled in one way only, wherever it is mapped to. */
  ghost predicate OneSpelling(m: Mapping) {
    forall k, v, l, w {:trigger v in Lookup(m, k), w in Lookup(m, l)} ::
      v in Lookup(m, k) && w in Lookup(m, l) && TrimSpace(v) == TrimSpace(w) ==> v == w
  }

  ghost function SpellingOf(m: Mapping, p: string): (v: string)
    requires p in Universe(m)
    ensures TrimSpace(v) == p && exists k :: k in m && v in m[k]
  {
    var k, v :| k in m && v in m[k] && TrimSpace(v) == p;
    v
  }

  /** What the base is mapped to, and what all other permissions are mapped to by their spellings. */
  ghost function AsSpelled(m: Mapping, base: seq<string>): Graph {
    map p | p in Elems(base) + Universe(m) :: Cleaned(Lookup(m, if p in base then p else SpellingOf(m, p)))
  }

  lemma OneSpellingLeads(j: Settings, claims: Claims)
    requires OneSpelling(j.permissionsMap)
    ensures Spelled(j, claims, AsSpelled(j.permissionsMap, FromClaims(j, claims)))
  {
    var m, base := j.permissionsMap, FromClaims(j, claims);
    var g := AsSpelled(m, base);
    FromClaimsIs(j, claims);
    forall b | ClaimGrants(j, claims, b)
      ensures LeadsAs(m, g, b, b)
    {
      assert b in base;
    }
    forall k, v | v in Lookup(m, k) && TrimSpace(v) != "" && !ClaimGrants(j, claims, TrimSpace(v))
      ensures LeadsAs(m, g, TrimSpace(v), v)
    {
      var p := TrimSpace(v);
      assert p in Universe(m) && p !in base;
      var w := SpellingOf(m, p);
      var l :| l in m && w in m[l];
      assert w in Lookup(m, l);
    }
  }

  /** If each permission has one spelling, the list holds exactly what is reached by the
      spellings, for any claims. */
  lemma OneSpellingResult(j: Settings, claims: Claims)
    requires OneSpelling(j.permissionsMap)
    ensures var g := AsSpelled(j.permissionsMap, FromClaims(j, claims));
            forall p :: p in AllGranted(j, claims) <==> GrantedIn(j, claims, g, p)
  {
    OneSpellingLeads(j, claims);
    GrantedAsSpelled(j, claims, AsSpelled(j.permissionsMap, FromClaims(j, claims)));
  }

  /** A permission that is mapped to a single untrimmed value: the value is granted in its
      trimmed form, but its own mappings are not looked up. The result is closed exactly if
      there is nothing to find. */
  lemma UntrimmedValue(m: Mapping, k: string, v: string)
    requires Lookup(m, k) == [v] && v !in m && !Blank(v) && TrimSpace(v) != k
    ensures Mapped(m, [k], [k]) == [k, TrimSpace(v)]
    ensures AllExpanded(m, [k, TrimSpace(v)], [k, TrimSpace(v)])
            <==> forall p :: Among(Lookup(m, TrimSpace(v)), p) ==> p == k || p == TrimSpace(v)
  {
    var t := TrimSpace(v);
    assert Added([k], v) == [k, t] && [v][1..] == [];
    assert AddedAll([k, t], []) == [k, t] && NewValues([k, t], []) == [];
    assert AddedAll([k], [v]) == [k, t];
    assert NewValues([k], [v]) == [v];
    assert Mapped(m, [v], [k, t]) == [k, t];
    assert MappedBelow(m, k, [k]) == [k, t];
    assert Expanded(m, k, [k, t]);
    if AllExpanded(m, [k, t], [k, t]) {
      assert t in [k, t];
    }
  }

  // ---------- The loops ----------

  /** Adds what the source permissions are mapped to. */
  method AddMappedPermissions(m: Mapping, source: seq<string>, target: seq<string>) returns (r: seq<string>)
    ensures r == Mapped(m, source, target)
    decreases Missing(m, target), |source|, 1
  {
    r := target;
    for i := 0 to |source|
      invariant target <= r
      invariant Mapped(m, source[i..], r) == Mapped(m, source, target)
    {
      assert source[i..][0] == source[i] && source[i..][1..] == source[i + 1..];
      if source[i] in m {
        assert Missing(m, r) <= Missing(m, target);
        r := AddMappedBelow(m, source[i], r);
      }
    }
  }

  /** The body of the loop: adds the values for one permission, and then what these are mapped to. */
  method AddMappedBelow(m: Mapping, val: string, target: seq<string>) returns (r: seq<string>)
    requires val in m
    ensures r == MappedBelow(m, val, target)
    decreases Missing(m, target), 1, 0
  {
    var l;
    r, l := AddValues(target, m[val]);
    NewValuesAre(target, m[val]);
    assert l != [] ==> TrimSpace(l[0]) in Missing(m, target) && TrimSpace(l[0]) !in Missing(m, r);
    r := AddMappedPermissions(m, l, r);
  }

  lemma NextValue(list: seq<string>, values: seq<string>, j: nat, l: seq<string>)
    requires j < |values|
    ensures var v, more := values[j], Added(list, values[j]);
            && AddedAll(list, values[j..]) == AddedAll(more, values[j + 1..])
            && l + NewValues(list, values[j..])
               == (if !Blank(v) && TrimSpace(v) !in list then l + [v] else l) + NewValues(more, values[j + 1..])
  {
    var more := Added(list, values[j]);
    assert values[j..][0] == values[j] && values[j..][1..] == values[j + 1..];
    assert !Blank(values[j]) && TrimSpace(values[j]) !in list <==> more != list;
  }

  /** Adds the values, and collects those that were new. */
  method AddValues(target: seq<string>, mappedValues: seq<string>) returns (r: seq<string>, l: seq<string>)
    ensures r == AddedAll(target, mappedValues) && l == NewValues(target, mappedValues)
  {
    r, l := target, [];
    for j := 0 to |mappedValues|
      invariant AddedAll(r, mappedValues[j..]) == AddedAll(target, mappedValues)
      invariant l + NewValues(r, mappedValues[j..]) == NewValues(target, mappedValues)
    {
      NextValue(r, mappedValues, j, l);
      var added;
      r, added := AddPermission(r, mappedValues[j]);
      if added {
        l := l + [mappedValues[j]];
      }
    }
  }

  method GetGrantedPermissions(j: Settings, claims: Claims) returns (granted: seq<string>)
    ensures granted == AllGranted(j, claims)
  {
    granted := AddPermissionsFromPermissionsClaim(j, claims, []);
    granted := AddPermissionsFromRoles(j, claims, granted);
    granted := AddMappedPermissions(j.permissionsMap, granted, granted);
  }
}
