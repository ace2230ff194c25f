/**
 * The `protect` and `admin` middleware: an employee's roles are expanded along
 * fixed hierarchy lists, and the role requested for the call must be among them.
 * Token verification and the employee lookup are an oracle whose answer is an
 * input here.
 */
module Auth {
  import opened Wrappers

  /**
   * The hierarchy lists, in the order `Object.values` visits them.  A role
   * grants every role listed before it in its own list.
   */
  const Hierarchies: seq<seq<string>> := [
    ["admin"],
    ["supervisor"],
    ["screener", "creditManager", "sanctionHead"],
    ["disbursalManager", "disbursalHead"],
    ["collectionExecutive", "collectionHead"],
    ["accountExecutive", "accountHead"]
  ]

  /** Employees carry an id and the list of roles they hold. */
  datatype Employee = Employee(id: nat, empRole: seq<string>)

  /** What `protect` attaches to a request that gets through. */
  datatype Session = Session(employee: Employee, roles: set<string>, activeRole: string)

  predicate Distinct(h: seq<string>)
  {
    forall i, j :: 0 <= i < j < |h| ==> h[i] != h[j]
  }

  /** `hierarchy.indexOf(role)`, with -1 for an absent role. */
  function IndexOf(h: seq<string>, role: string): (i: int)
    ensures -1 <= i < |h|
    ensures i >= 0 ==> h[i] == role && forall k :: 0 <= k < i ==> h[k] != role
    ensures i == -1 <==> role !in h
    decreases |h|
  {
    if |h| == 0 then -1
    else if h[0] == role then 0
    else var k := IndexOf(h[1..], role); if k == -1 then -1 else k + 1
  }

  /** `hierarchy.slice(0, roleIndex + 1)` as a set, or nothing when the role is absent. */
  function GrantedBy(h: seq<string>, role: string): set<string>
  {
    var i := IndexOf(h, role);
    if i == -1 then {} else set k | 0 <= k <= i :: h[k]
  }

  /** The roles one hierarchy list contributes for the employee's roles. */
  function ExpandIn(h: seq<string>, empRoles: seq<string>): set<string>
    decreases |empRoles|
  {
    if |empRoles| == 0 then {}
    else ExpandIn(h, empRoles[..|empRoles| - 1]) + GrantedBy(h, empRoles[|empRoles| - 1])
  }

  function ExpandAll(hs: seq<seq<string>>, empRoles: seq<string>): set<string>
    decreases |hs|
  {
    if |hs| == 0 then {} else ExpandAll(hs[..|hs| - 1], empRoles) + ExpandIn(hs[|hs| - 1], empRoles)
  }

  /** `req.roles`: the expanded role set of an employee. */
  function Expand(empRoles: seq<string>): set<string>
  {
    ExpandAll(Hierarchies, empRoles)
  }

  /**
   * Reference meaning of the expansion within one list: `x` is granted when it is
   * listed at or before a position holding one of the employee's roles.
   */
  predicate GrantsIn(h: seq<string>, empRoles: seq<string>, x: string)
  {
    exists i, j :: 0 <= i <= j < |h| && h[i] == x && h[j] in empRoles
  }

  predicate Grants(empRoles: seq<string>, x: string)
  {
    exists k :: 0 <= k < |Hierarchies| && GrantsIn(Hierarchies[k], empRoles, x)
  }

  lemma {:induction false} GrantedBySpec(h: seq<string>, role: string, x: string)
    requires Distinct(h)
    ensures x in GrantedBy(h, role) <==> exists i, j :: 0 <= i <= j < |h| && h[i] == x && h[j] == role
  {
    var idx := IndexOf(h, role);
    if x in GrantedBy(h, role) {
      var k :| 0 <= k <= idx && h[k] == x;
      assert 0 <= k <= idx < |h| && h[k] == x && h[idx] == role;
    }
    if exists i, j :: 0 <= i <= j < |h| && h[i] == x && h[j] == role {
      var i, j :| 0 <= i <= j < |h| && h[i] == x && h[j] == role;
      assert role in h;
      assert h[idx] == h[j];
      assert idx == j;
      assert x in GrantedBy(h, role);
    }
  }

  /** Within one distinct list, the computed expansion is exactly the reference meaning. */
  lemma {:induction false} ExpandInSpec(h: seq<string>, empRoles: seq<string>, x: string)
    requires Distinct(h)
    ensures x in ExpandIn(h, empRoles) <==> GrantsIn(h, empRoles, x)
    decreases |empRoles|
  {
    if |empRoles| > 0 {
      var init := empRoles[..|empRoles| - 1];
      var last := empRoles[|empRoles| - 1];
      ExpandInSpec(h, init, x);
      GrantedBySpec(h, last, x);
      assert forall r :: r in empRoles <==> r in init || r == last by {
        assert empRoles == init + [last];
      }
      if GrantsIn(h, empRoles, x) {
        var i, j :| 0 <= i <= j < |h| && h[i] == x && h[j] in empRoles;
        if h[j] != last {
          assert h[j] in init;
          assert GrantsIn(h, init, x);
        }
      }
      if GrantsIn(h, init, x) {
        var i, j :| 0 <= i <= j < |h| && h[i] == x && h[j] in init;
        assert h[j] in empRoles;
      }
    }
  }

  lemma {:induction false} ExpandAllSpec(hs: seq<seq<string>>, empRoles: seq<string>, x: string)
    ensures x in ExpandAll(hs, empRoles) <==> exists k :: 0 <= k < |hs| && x in ExpandIn(hs[k], empRoles)
    decreases |hs|
  {
    if |hs| > 0 {
      var init := hs[..|hs| - 1];
      ExpandAllSpec(init, empRoles, x);
      if exists k :: 0 <= k < |hs| && x in ExpandIn(hs[k], empRoles) {
        var k :| 0 <= k < |hs| && x in ExpandIn(hs[k], empRoles);
        if k < |hs| - 1 { assert hs[k] == init[k]; }
      }
      if exists k :: 0 <= k < |init| && x in ExpandIn(init[k], empRoles) {
        var k :| 0 <= k < |init| && x in ExpandIn(init[k], empRoles);
        assert hs[k] == init[k];
      }
    }
  }

  lemma HierarchiesDistinct()
    ensures forall k :: 0 <= k < |Hierarchies| ==> Distinct(Hierarchies[k])
  {
  }

  /**
   * The expanded set holds exactly the roles listed at or before one of the
   * employee's roles in some hierarchy list.
   */
  lemma ExpandSpec(empRoles: seq<string>, x: string)
    ensures x in Expand(empRoles) <==> Grants(empRoles, x)
  {
    ExpandAllSpec(Hierarchies, empRoles, x);
    HierarchiesDistinct();
    forall k | 0 <= k < |Hierarchies|
      ensures x in ExpandIn(Hierarchies[k], empRoles) <==> GrantsIn(Hierarchies[k], empRoles, x)
    {
      ExpandInSpec(Hierarchies[k], empRoles, x);
    }
  }

  /** Every employee role found in a list brings itself and every role listed before it. */
  lemma ExpandIncludesPrefix(empRoles: seq<string>, k: nat, j: nat, i: nat)
    requires k < |Hierarchies| && i <= j < |Hierarchies[k]|
    requires Hierarchies[k][j] in empRoles
    ensures Hierarchies[k][i] in Expand(empRoles)
  {
    ExpandSpec(empRoles, Hierarchies[k][i]);
    assert GrantsIn(Hierarchies[k], empRoles, Hierarchies[k][i]);
  }

  /**
   * Nothing outside the lists is ever granted, and every granted role shares a
   * list with one of the employee's roles: expansion never crosses lists.
   */
  lemma ExpandStaysInList(empRoles: seq<string>, x: string)
    requires x in Expand(empRoles)
    ensures exists k :: 0 <= k < |Hierarchies| && x in Hierarchies[k] &&
              exists r :: r in empRoles && r in Hierarchies[k]
  {
    ExpandSpec(empRoles, x);
    var k :| 0 <= k < |Hierarchies| && GrantsIn(Hierarchies[k], empRoles, x);
    var i, j :| 0 <= i <= j < |Hierarchies[k]| && Hierarchies[k][i] == x && Hierarchies[k][j] in empRoles;
    assert x in Hierarchies[k];
    assert Hierarchies[k][j] in Hierarchies[k];
  }

  /** A role found in no list contributes nothing. */
  lemma ExpandIgnoresUnknown(empRoles: seq<string>, r: string)
    requires forall k :: 0 <= k < |Hierarchies| ==> r !in Hierarchies[k]
    ensures Expand(empRoles + [r]) == Expand(empRoles)
  {
    forall x ensures x in Expand(empRoles + [r]) <==> x in Expand(empRoles) {
      ExpandSpec(empRoles + [r], x);
      ExpandSpec(empRoles, x);
      if Grants(empRoles + [r], x) {
        var k :| 0 <= k < |Hierarchies| && GrantsIn(Hierarchies[k], empRoles + [r], x);
        var i, j :| 0 <= i <= j < |Hierarchies[k]| && Hierarchies[k][i] == x && Hierarchies[k][j] in empRoles + [r];
        assert Hierarchies[k][j] in Hierarchies[k];
        assert Hierarchies[k][j] in empRoles;
        assert GrantsIn(Hierarchies[k], empRoles, x);
      }
      if Grants(empRoles, x) {
        var k :| 0 <= k < |Hierarchies| && GrantsIn(Hierarchies[k], empRoles, x);
        var i, j :| 0 <= i <= j < |Hierarchies[k]| && Hierarchies[k][i] == x && Hierarchies[k][j] in empRoles;
        assert Hierarchies[k][j] in empRoles + [r];
        assert GrantsIn(Hierarchies[k], empRoles + [r], x);
      }
    }
  }

  /** Holding more roles never shrinks the expanded set. */
  lemma ExpandMonotone(fewer: seq<string>, more: seq<string>)
    requires forall r :: r in fewer ==> r in more
    ensures Expand(fewer) <= Expand(more)
  {
    forall x | x in Expand(fewer) ensures x in Expand(more) {
      ExpandSpec(fewer, x);
      ExpandSpec(more, x);
      var k :| 0 <= k < |Hierarchies| && GrantsIn(Hierarchies[k], fewer, x);
      var i, j :| 0 <= i <= j < |Hierarchies[k]| && Hierarchies[k][i] == x && Hierarchies[k][j] in fewer;
      assert GrantsIn(Hierarchies[k], more, x);
    }
  }

  /** A role listed in one list only, at position `j`, brings exactly the roles of that list up to `j`. */
  lemma SingleRoleExpansion(role: string, k: nat, j: nat, x: string)
    requires k < |Hierarchies| && j < |Hierarchies[k]| && Hierarchies[k][j] == role
    requires forall m :: 0 <= m < |Hierarchies| && m != k ==> role !in Hierarchies[m]
    ensures x in Expand([role]) <==> x in Hierarchies[k][..j + 1]
  {
    ExpandSpec([role], x);
    HierarchiesDistinct();
    if Grants([role], x) {
      var m :| 0 <= m < |Hierarchies| && GrantsIn(Hierarchies[m], [role], x);
      var i, jj :| 0 <= i <= jj < |Hierarchies[m]| && Hierarchies[m][i] == x && Hierarchies[m][jj] in [role];
      assert Hierarchies[m][jj] in Hierarchies[m];
      assert m == k;
      assert Hierarchies[k][..j + 1][i] == x;
    }
    if x in Hierarchies[k][..j + 1] {
      var i :| 0 <= i <= j && Hierarchies[k][..j + 1][i] == x;
      assert GrantsIn(Hierarchies[k], [role], x);
    }
  }

  /** The head of the sanction line holds the whole line. */
  lemma SanctionHeadExpansion()
    ensures Expand(["sanctionHead"]) == {"screener", "creditManager", "sanctionHead"}
  {
    assert Hierarchies[2][..3] == ["screener", "creditManager", "sanctionHead"];
    forall x ensures x in Expand(["sanctionHead"]) <==> x in {"screener", "creditManager", "sanctionHead"} {
      SingleRoleExpansion("sanctionHead", 2, 2, x);
    }
  }

  /** The head of the disbursal line holds the disbursal manager's role too. */
  lemma DisbursalHeadExpansion()
    ensures Expand(["disbursalHead"]) == {"disbursalManager", "disbursalHead"}
  {
    assert Hierarchies[3][..2] == ["disbursalManager", "disbursalHead"];
    forall x ensures x in Expand(["disbursalHead"]) <==> x in {"disbursalManager", "disbursalHead"} {
      SingleRoleExpansion("disbursalHead", 3, 1, x);
    }
  }

  /** `admin` sits alone in its list: it grants nothing else. */
  lemma AdminExpansion()
    ensures Expand(["admin"]) == {"admin"}
  {
    assert Hierarchies[0][..1] == ["admin"];
    forall x ensures x in Expand(["admin"]) <==> x in {"admin"} {
      SingleRoleExpansion("admin", 0, 0, x);
    }
  }

  /**
   * `protect`.  `hasToken` says whether the `jwt` cookie is present; `found` is
   * what verifying it and looking the employee up produced (nothing when the
   * token is invalid or the employee is gone); `requested` is the `role` query
   * parameter.  Every failure after the token was read is re-thrown by the catch
   * as a 401.
   */
  function Protect(hasToken: bool, found: Option<Employee>, requested: Option<string>): (r: Result<Session>)
    ensures !hasToken ==> r == Err(Forbidden)
    ensures hasToken && r.Err? ==> r.error == Unauthorized
    ensures r.Ok? <==> (hasToken && found.Some? && requested.Some? && requested.value != "" &&
                        requested.value in Expand(found.value.empRole))
    ensures r.Ok? ==> r.value.activeRole == requested.value && r.value.employee == found.value
    ensures r.Ok? ==> r.value.activeRole in r.value.roles
  {
    if !hasToken then Err(Forbidden)
    else match found
      case None => Err(Unauthorized)
      case Some(emp) =>
        var roles := Expand(emp.empRole);
        match requested
        case None => Err(Unauthorized)
        case Some(role) =>
          if role == "" || role !in roles then Err(Unauthorized)
          else Ok(Session(emp, roles, role))
  }

  /** `admin`: passes exactly when the active role is `admin`, otherwise 401. */
  function AdminGuard(activeRole: string): (r: Result<()>)
    ensures r.Ok? <==> activeRole == "admin"
    ensures r.Err? ==> r.error == Unauthorized
  {
    if activeRole != "admin" then Err(Unauthorized) else Ok(())
  }
}
