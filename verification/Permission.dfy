/** permission/permission.go: what a grant, a share and a revocation mean in concrete actions. */
module Permission {
  import opened Options
  import opened Text

  datatype Error = EmptySubject | EmptyResource | EmptyAction | EmptyRole | UnsupportedRole | NotSupported

  /** `expires` says whether ExpiresAt is set; the fields nobody reads are left out. */
  datatype Grant = Grant(subject: string, subjectType: string, subjectId: string, resource: string,
                         action: string, role: string, actions: seq<string>, expires: bool)

  datatype ShareRequest = ShareRequest(resource: string, subjectType: string, subjectId: string,
                                       role: string, actions: seq<string>, expires: bool)

  type Mapper = (string, string, seq<string>) -> Result<seq<string>, Error>

  function Subject(subjectType: string, id: string): string {
    var t, i := TrimSpace(subjectType), TrimSpace(id);
    if t == "" then i else if i == "" then t else t + ":" + i
  }

  function NormalizeGrant(g0: Grant): Result<Grant, Error> {
    var g1 := if g0.subject == "" && g0.subjectType != ""
              then g0.(subject := Subject(g0.subjectType, g0.subjectId)) else g0;
    var g := g1.(subject := TrimSpace(g1.subject), action := TrimSpace(g1.action), role := TrimSpace(g1.role));
    if g.subject == "" then Err(EmptySubject)
    else if g.resource == "" then Err(EmptyResource)
    else if g.action == "" && g.role == "" && g.actions == [] then Err(EmptyAction)
    else if g.expires then Err(NotSupported)
    else Ok(g)
  }

  function NormalizeShare(r: ShareRequest): Result<Grant, Error> {
    if r.subjectType == "" then Err(EmptySubject)
    else if r.subjectType != "public" && r.subjectId == "" then Err(EmptySubject)
    else if r.resource == "" then Err(EmptyResource)
    else if r.role == "" && r.actions == [] then Err(EmptyRole)
    else NormalizeGrant(ShareAsGrant(r))
  }

  function ShareAsGrant(r: ShareRequest): Grant {
    Grant(Subject(r.subjectType, r.subjectId), r.subjectType, r.subjectId, r.resource, "", r.role, r.actions, r.expires)
  }

  /** What is refused, and as what: the first of these that applies. */
  lemma NormalizeRefuses(g: Grant)
    ensures
      var named := if g.subject == "" && g.subjectType != "" then !Blank(g.subjectType) || !Blank(g.subjectId)
                   else !Blank(g.subject);
      var acts := !Blank(g.action) || !Blank(g.role) || g.actions != [];
      var r := NormalizeGrant(g);
      && (r.Ok? <==> named && g.resource != "" && acts && !g.expires)
      && (r == Err(EmptySubject) <==> !named)
      && (r == Err(EmptyResource) <==> named && g.resource == "")
      && (r == Err(EmptyAction) <==> named && g.resource != "" && !acts)
  {
    TrimSpaceTrims(g.subject);
    TrimSpaceTrims(g.subjectType);
    TrimSpaceTrims(g.subjectId);
    TrimSpaceTrims(g.action);
    TrimSpaceTrims(g.role);
    SubjectBlank(g.subjectType, g.subjectId);
    TrimSpaceTrims(Subject(g.subjectType, g.subjectId));
  }

  lemma SubjectBlank(subjectType: string, id: string)
    ensures Blank(Subject(subjectType, id)) <==> Blank(subjectType) && Blank(id)
  {
    TrimSpaceTrims(subjectType);
    TrimSpaceTrims(id);
    var t, i := TrimSpace(subjectType), TrimSpace(id);
    if t != "" { assert t[0] in Subject(subjectType, id) && !IsSpace(t[0]); }
    if i != "" && t == "" { assert i[0] in i && !IsSpace(i[0]); }
  }

  /** Who is addressed: type and id, joined by a colon if both are there. */
  lemma SubjectText(subjectType: string, id: string)
    ensures
      var s := Subject(subjectType, id);
      && Trimmed(s)
      && (!Blank(subjectType) && !Blank(id) ==> s == TrimSpace(subjectType) + ":" + TrimSpace(id))
      && (Blank(id) ==> s == TrimSpace(subjectType))
      && (Blank(subjectType) ==> s == TrimSpace(id))
  {
    TrimSpaceTrims(subjectType);
    TrimSpaceTrims(id);
  }

  /** What an accepted grant comes back as. */
  lemma NormalizedFields(g: Grant)
    requires NormalizeGrant(g).Ok?
    ensures
      var n := NormalizeGrant(g).value;
      && (g.subject != "" || g.subjectType == "" ==> n.subject == TrimSpace(g.subject))
      && (g.subject == "" && !Blank(g.subjectType) && !Blank(g.subjectId) ==>
            n.subject == TrimSpace(g.subjectType) + ":" + TrimSpace(g.subjectId))
      && (g.subject == "" && !Blank(g.subjectType) && Blank(g.subjectId) ==> n.subject == TrimSpace(g.subjectType))
      && (g.subject == "" && g.subjectType != "" && Blank(g.subjectType) ==> n.subject == TrimSpace(g.subjectId))
      && n.action == TrimSpace(g.action) && n.role == TrimSpace(g.role)
      && n.resource == g.resource && n.actions == g.actions && !n.expires
      && n.subjectType == g.subjectType && n.subjectId == g.subjectId
  {
    SubjectText(g.subjectType, g.subjectId);
    TrimmedIsFixed(Subject(g.subjectType, g.subjectId));
  }

  /** No two subjects are confused: with a colon in neither type, one text means one type and one id. */
  lemma SubjectInjective(type1: string, id1: string, type2: string, id2: string)
    requires !Blank(type1) && !Blank(type2) && ':' !in TrimSpace(type1) && ':' !in TrimSpace(type2)
    ensures Subject(type1, id1) == Subject(type2, id2)
       <==> TrimSpace(type1) == TrimSpace(type2) && TrimSpace(id1) == TrimSpace(id2)
  {
    SubjectParts(type1, id1);
    SubjectParts(type2, id2);
  }

  /** A colon in a type does confuse them: part of it may as well belong to the id. */
  lemma SubjectsMeet(a: string, b: string, id: string)
    requires a != "" && b != "" && id != "" && Trimmed(a) && Trimmed(b) && Trimmed(id)
    ensures Subject(a + ":" + b, id) == Subject(a, b + ":" + id)
  {
    TrimmedIsFixed(a);
    TrimmedIsFixed(id);
    TrimmedIsFixed(a + ":" + b);
    TrimmedIsFixed(b + ":" + id);
    assert (a + ":" + b) + ":" + id == a + ":" + (b + ":" + id);
  }

  lemma SubjectParts(subjectType: string, id: string)
    requires !Blank(subjectType) && ':' !in TrimSpace(subjectType)
    ensures
      var s := Subject(subjectType, id);
      var at := IndexOf(s, ':');
      s[..at] == TrimSpace(subjectType) && (if at < |s| then s[at + 1..] else "") == TrimSpace(id)
      && (at < |s| ==> TrimSpace(id) != "")
  {
    SubjectText(subjectType, id);
    TrimSpaceTrims(subjectType);
    TrimSpaceTrims(id);
    var t, s := TrimSpace(subjectType), Subject(subjectType, id);
    if !Blank(id) {
      IndexAfter(t, ':', TrimSpace(id));
    } else {
      IndexNowhere(s, ':');
    }
  }

  /** Two accepted grants that name type and id address one subject exactly if type and id agree. */
  lemma GrantSubjects(g: Grant, h: Grant)
    requires NormalizeGrant(g).Ok? && NormalizeGrant(h).Ok? && g.subject == "" && h.subject == ""
    requires !Blank(g.subjectType) && ':' !in TrimSpace(g.subjectType)
    requires !Blank(h.subjectType) && ':' !in TrimSpace(h.subjectType)
    ensures NormalizeGrant(g).value.subject == NormalizeGrant(h).value.subject
       <==> TrimSpace(g.subjectType) == TrimSpace(h.subjectType) && TrimSpace(g.subjectId) == TrimSpace(h.subjectId)
  {
    SubjectText(g.subjectType, g.subjectId);
    SubjectText(h.subjectType, h.subjectId);
    TrimmedIsFixed(Subject(g.subjectType, g.subjectId));
    TrimmedIsFixed(Subject(h.subjectType, h.subjectId));
    SubjectInjective(g.subjectType, g.subjectId, h.subjectType, h.subjectId);
  }

  /** What an accepted share stands for: type and id as its subject, the role, and no single action. */
  lemma SharedFields(r: ShareRequest)
    requires NormalizeShare(r).Ok?
    ensures
      var n := NormalizeShare(r).value;
      && (!Blank(r.subjectType) && !Blank(r.subjectId) ==>
            n.subject == TrimSpace(r.subjectType) + ":" + TrimSpace(r.subjectId))
      && (Blank(r.subjectId) ==> n.subject == TrimSpace(r.subjectType))
      && (Blank(r.subjectType) ==> n.subject == TrimSpace(r.subjectId))
      && n.resource == r.resource && n.action == "" && n.role == TrimSpace(r.role) && n.actions == r.actions
  {
    SubjectText(r.subjectType, r.subjectId);
    TrimmedIsFixed(Subject(r.subjectType, r.subjectId));
    NormalizedFields(ShareAsGrant(r));
  }

  /** The same for two accepted shares. */
  lemma ShareSubjects(r: ShareRequest, q: ShareRequest)
    requires NormalizeShare(r).Ok? && NormalizeShare(q).Ok?
    requires !Blank(r.subjectType) && ':' !in TrimSpace(r.subjectType)
    requires !Blank(q.subjectType) && ':' !in TrimSpace(q.subjectType)
    ensures NormalizeShare(r).value.subject == NormalizeShare(q).value.subject
       <==> TrimSpace(r.subjectType) == TrimSpace(q.subjectType) && TrimSpace(r.subjectId) == TrimSpace(q.subjectId)
  {
    SubjectText(r.subjectType, r.subjectId);
    SubjectText(q.subjectType, q.subjectId);
    TrimmedIsFixed(Subject(r.subjectType, r.subjectId));
    TrimmedIsFixed(Subject(q.subjectType, q.subjectId));
    SubjectInjective(r.subjectType, r.subjectId, q.subjectType, q.subjectId);
  }

  /** What a share is refused for.  Only a public share does without an id. */
  lemma ShareRefuses(r: ShareRequest)
    ensures
      var given := r.subjectType != "" && (r.subjectType == "public" || r.subjectId != "");
      var named := !Blank(r.subjectType) || !Blank(r.subjectId);
      var roled := r.role != "" || r.actions != [];
      var acts := !Blank(r.role) || r.actions != [];
      var s := NormalizeShare(r);
      && (s.Ok? <==> given && named && r.resource != "" && acts && !r.expires)
      && (s == Err(EmptySubject) <==> !given || (r.resource != "" && roled && !named))
      && (s == Err(EmptyResource) <==> given && r.resource == "")
      && (s == Err(EmptyRole) <==> given && r.resource != "" && !roled)
      && (s == Err(EmptyAction) <==> given && r.resource != "" && roled && named && !acts)
      && (s == Err(NotSupported) <==> given && r.resource != "" && named && acts && r.expires)
  {
    NormalizeRefuses(ShareAsGrant(r));
    SubjectBlank(r.subjectType, r.subjectId);
    TrimSpaceTrims("");
  }

  /** Normalizing is done once: GrantRole may repeat it without effect. */
  lemma NormalizeTwice(g: Grant)
    requires NormalizeGrant(g).Ok?
    ensures
      var n := NormalizeGrant(g).value;
      && NormalizeGrant(n) == Ok(n)
      && n.subject != "" && n.resource == g.resource && n.actions == g.actions && !n.expires
      && Trimmed(n.subject) && Trimmed(n.action) && Trimmed(n.role)
      && (n.action != "" || n.role != "" || n.actions != [])
  {
    var s := if g.subject == "" && g.subjectType != "" then Subject(g.subjectType, g.subjectId) else g.subject;
    TrimSpaceTrims(s);
    TrimSpaceTrims(g.action);
    TrimSpaceTrims(g.role);
    TrimmedIsFixed(TrimSpace(s));
    TrimmedIsFixed(TrimSpace(g.action));
    TrimmedIsFixed(TrimSpace(g.role));
  }

  const VIEWER := ["skill.read", "skill.download"]
  const EDITOR := VIEWER + ["skill.update", "skill.upload", "skill.publish"]
  const OWNER := EDITOR + ["skill.share", "skill.delete"]

  function DefaultRoleActionMapper(resource: string, role: string, custom: seq<string>): Result<seq<string>, Error> {
    if custom != [] then Ok(Clean(custom))
    else if role == "viewer" then Ok(VIEWER)
    else if role == "editor" then Ok(EDITOR)
    else if role == "owner" then Ok(OWNER)
    else if role == "" then Err(EmptyRole)
    else Err(UnsupportedRole)
  }

  /** Each role may do what the one before it may, and the owner alone may share and delete.  Custom
      actions stand in for any role. */
  lemma Roles(resource: string, role: string, custom: seq<string>)
    ensures
      var r := DefaultRoleActionMapper(resource, role, custom);
      && (custom != [] ==> r == Ok(Clean(custom)))
      && (custom == [] && role == "viewer" ==> r.Ok? && r.value == ["skill.read", "skill.download"])
      && (custom == [] && role == "editor" ==>
            r.Ok? && r.value == ["skill.read", "skill.download", "skill.update", "skill.upload", "skill.publish"])
      && (custom == [] && role == "owner" ==>
            exists e :: DefaultRoleActionMapper(resource, "editor", []) == Ok(e)
                        && r == Ok(e + ["skill.share", "skill.delete"]))
      && (custom == [] && role !in ["", "viewer", "editor", "owner"] ==> r == Err(UnsupportedRole))
  {
    assert DefaultRoleActionMapper(resource, "editor", []) == Ok(EDITOR);
  }

  /** The actions Grant writes and Revoke deletes, for a normalized grant. */
  function Addressed(mapper: Mapper, g: Grant): Result<seq<string>, Error> {
    if g.action == "" then mapper(g.resource, g.role, g.actions) else Ok([g.action])
  }

  /** The actions GrantRole writes: it does not look at `action`. */
  function RoleAddressed(mapper: Mapper, g: Grant): Result<seq<string>, Error> {
    mapper(g.resource, g.role, g.actions)
  }

  /** Revoke undoes a direct GrantRole of the same grant exactly when the grant names no action,
      or the role happens to mean just that action. */
  lemma RoleGrantRevocable(mapper: Mapper, g: Grant)
    requires RoleAddressed(mapper, g).Ok?
    ensures Addressed(mapper, g).Ok?
    ensures (forall a :: a in RoleAddressed(mapper, g).value <==> a in Addressed(mapper, g).value)
        <==> g.action == "" || (g.action in RoleAddressed(mapper, g).value
                                && forall a :: a in RoleAddressed(mapper, g).value ==> a == g.action)
  {
    if g.action != "" {
      assert g.action in [g.action];
    }
  }

  /** A share names no action, so revoking it addresses what sharing wrote. */
  lemma ShareRevocable(mapper: Mapper, r: ShareRequest)
    requires NormalizeShare(r).Ok?
    ensures NormalizeShare(r).value.action == ""
    ensures NormalizeGrant(ShareAsGrant(r)) == NormalizeShare(r)
    ensures Addressed(mapper, NormalizeShare(r).value) == RoleAddressed(mapper, NormalizeShare(r).value)
  {
  }

  // ---------------------------------------------------------------------------------------------
  // cleanActions
  // ---------------------------------------------------------------------------------------------

  function Clean(ins: seq<string>): seq<string> {
    if ins == [] then []
    else
      var before, a := Clean(ins[..|ins| - 1]), TrimSpace(ins[|ins| - 1]);
      if a == "" || a in before then before else before + [a]
  }

  method CleanActions(ins: seq<string>) returns (out: seq<string>)
    ensures out == Clean(ins)
  {
    out := [];
    var seen: set<string> := {};
    for i := 0 to |ins|
      invariant out == Clean(ins[..i])
      invariant forall a :: a in seen <==> a in out
    {
      assert ins[..i + 1][..i] == ins[..i];
      var a := TrimSpace(ins[i]);
      if a == "" {
        continue;
      }
      if a in seen {
        continue;
      }
      seen := seen + {a};
      out := out + [a];
    }
    assert ins[..|ins|] == ins;
  }

  /** The first place where an action occurs, up to surrounding space. */
  ghost predicate FirstAt(ins: seq<string>, a: string, k: nat) {
    k < |ins| && TrimSpace(ins[k]) == a && forall j :: 0 <= j < k ==> TrimSpace(ins[j]) != a
  }

  lemma FirstAtExtends(ins: seq<string>, n: nat, a: string, k: nat)
    requires n <= |ins| && FirstAt(ins[..n], a, k)
    ensures FirstAt(ins, a, k)
  {
  }

  lemma FirstAtUnique(ins: seq<string>, a: string, k: nat, l: nat)
    requires FirstAt(ins, a, k) && FirstAt(ins, a, l)
    ensures k == l
  {
  }

  lemma NewAction(ins: seq<string>, a: string)
    requires a != "" && a !in Clean(ins)
    requires forall k :: 0 <= k < |ins| && !Blank(ins[k]) ==> TrimSpace(ins[k]) in Clean(ins)
    ensures forall k :: 0 <= k < |ins| ==> TrimSpace(ins[k]) != a
  {
    forall k | 0 <= k < |ins| ensures TrimSpace(ins[k]) != a {
      TrimSpaceTrims(ins[k]);
    }
  }

  /** Trimmed, never blank, and nothing lost. */
  lemma {:induction false} CleanKeepsAll(ins: seq<string>)
    ensures forall a :: a in Clean(ins) ==> a != "" && Trimmed(a)
    ensures forall k :: 0 <= k < |ins| && !Blank(ins[k]) ==> TrimSpace(ins[k]) in Clean(ins)
  {
    if ins != [] {
      CleanKeepsAll(ins[..|ins| - 1]);
      TrimSpaceTrims(ins[|ins| - 1]);
    }
  }

  /** Each action stands for its first occurrence. */
  lemma {:induction false} CleanOccurs(ins: seq<string>, i: nat) returns (k: nat)
    requires i < |Clean(ins)|
    ensures FirstAt(ins, Clean(ins)[i], k)
  {
    var n := |ins| - 1;
    if i < |Clean(ins[..n])| {
      k := CleanOccurs(ins[..n], i);
      FirstAtExtends(ins, n, Clean(ins)[i], k);
    } else {
      CleanKeepsAll(ins[..n]);
      NewAction(ins[..n], TrimSpace(ins[n]));
      k := n;
      forall j | 0 <= j < k ensures TrimSpace(ins[j]) != Clean(ins)[i] {
        assert ins[..n][j] == ins[j];
      }
    }
  }

  /** The order of the result is the order of first occurrences; so no action comes twice. */
  lemma {:induction false} CleanInOrder(ins: seq<string>, i: nat, j: nat, k: nat, l: nat)
    requires i < j < |Clean(ins)| && FirstAt(ins, Clean(ins)[i], k) && FirstAt(ins, Clean(ins)[j], l)
    ensures k < l
  {
    var n := |ins| - 1;
    var k' := CleanOccurs(ins[..n], i);
    FirstAtExtends(ins, n, Clean(ins)[i], k');
    FirstAtUnique(ins, Clean(ins)[i], k, k');
    if j < |Clean(ins[..n])| {
      var l' := CleanOccurs(ins[..n], j);
      FirstAtExtends(ins, n, Clean(ins)[j], l');
      FirstAtUnique(ins, Clean(ins)[j], l, l');
      CleanInOrder(ins[..n], i, j, k, l);
    } else {
      CleanKeepsAll(ins[..n]);
      NewAction(ins[..n], TrimSpace(ins[n]));
      assert l == n by {
        forall m | 0 <= m < n ensures TrimSpace(ins[m]) != Clean(ins)[j] {
          assert ins[..n][m] == ins[m];
        }
      }
    }
  }

  /** The default mapper: known roles or any custom list; what it answers is clean, that is trimmed,
      not blank and without repetition, and empty only for a list of blanks. */
  lemma DefaultActions(resource: string, role: string, custom: seq<string>)
    ensures var r := DefaultRoleActionMapper(resource, role, custom);
      && (r.Ok? <==> custom != [] || role in ["viewer", "editor", "owner"])
      && (r.Ok? ==> Clean(r.value) == r.value)
      && (r.Ok? && r.value == [] <==> custom != [] && forall a :: a in custom ==> Blank(a))
      && (r == Err(EmptyRole) <==> custom == [] && role == "")
  {
    CleanTwice(custom);
    CleanEmpty(custom);
    RolesClean();
  }

  lemma CleanEmpty(ins: seq<string>)
    ensures Clean(ins) == [] <==> forall a :: a in ins ==> Blank(a)
  {
    CleanKeepsAll(ins);
    if Clean(ins) == [] {
      forall a | a in ins ensures Blank(a) {
        var k :| 0 <= k < |ins| && ins[k] == a;
      }
    } else {
      var k := CleanOccurs(ins, 0);
      TrimSpaceTrims(ins[k]);
      assert Clean(ins)[0] in Clean(ins) && ins[k] in ins;
    }
  }

  lemma {:induction false} AlreadyClean(ins: seq<string>)
    requires forall i :: 0 <= i < |ins| ==> ins[i] != "" && Trimmed(ins[i]) && ins[i] !in ins[..i]
    ensures Clean(ins) == ins
  {
    if ins != [] {
      var n := |ins| - 1;
      forall i | 0 <= i < n ensures ins[..n][i] !in ins[..n][..i] {
        assert ins[..n][..i] == ins[..i];
      }
      AlreadyClean(ins[..n]);
      TrimmedIsFixed(ins[n]);
      assert ins == ins[..n] + [ins[n]];
    }
  }

  lemma CleanTwice(ins: seq<string>)
    ensures Clean(Clean(ins)) == Clean(ins)
  {
    var c := Clean(ins);
    CleanKeepsAll(ins);
    forall i | 0 <= i < |c| ensures c[i] != "" && Trimmed(c[i]) && c[i] !in c[..i] {
      assert c[i] in c;
      forall j | 0 <= j < i ensures c[j] != c[i] {
        var k := CleanOccurs(ins, j);
        var l := CleanOccurs(ins, i);
        CleanInOrder(ins, j, i, k, l);
      }
    }
    AlreadyClean(c);
  }

  lemma RolesClean()
    ensures Clean(VIEWER) == VIEWER && Clean(EDITOR) == EDITOR && Clean(OWNER) == OWNER
  {
    forall i | 0 <= i < |OWNER| ensures OWNER[i] != "" && Trimmed(OWNER[i]) && OWNER[i] !in OWNER[..i] {
      assert |"skill.read"| == 10 && |"skill.download"| == 14 && |"skill.update"| == |"skill.upload"| == 12;
      assert |"skill.publish"| == 13 && |"skill.share"| == 11 && |"skill.delete"| == 12;
      assert "skill.update"[8] == 'd' && "skill.upload"[8] == 'l' && "skill.delete"[6] == 'd';
      assert "skill.update"[6] == 'u' && "skill.upload"[6] == 'u';
    }
    AlreadyClean(OWNER);
    assert EDITOR == OWNER[..5] && VIEWER == OWNER[..2];
    forall n, i | 0 <= i < n <= |OWNER| ensures OWNER[..n][i] !in OWNER[..n][..i] {
      assert OWNER[..n][..i] == OWNER[..i];
    }
    AlreadyClean(EDITOR);
    AlreadyClean(VIEWER);
  }
}
