/** Permission patterns and the gates built on them (shared/src/permissions.ts). */
module Permissions {
  import opened Text

  type Permission = string

  predicate EndsInWildcard(p: Permission) { |p| >= 2 && p[|p| - 2] == '.' && p[|p| - 1] == '*' }

  /** `permissionMatches`. */
  predicate Matches(held: Permission, required: Permission) {
    held == required || held == "*" || (EndsInWildcard(held) && held[..|held| - 1] <= required)
  }

  /** `permissionOverlaps`. */
  predicate Overlaps(a: Permission, b: Permission) { Matches(a, b) || Matches(b, a) }

  /** `hasPermission`, for whatever nodes the registry calls sensitive. */
  predicate HasPermission(held: seq<Permission>, required: Permission, sensitive: set<Permission>) {
    if required in sensitive then required in held else exists h :: h in held && Matches(h, required)
  }

  predicate Passes(held: seq<Permission>, r: Permission, sensitive: set<Permission>) {
    if r in sensitive then r in held else exists h :: h in held && Overlaps(h, r)
  }

  /** `hasAnyPermission`. */
  predicate HasAnyPermission(held: seq<Permission>, required: seq<Permission>, sensitive: set<Permission>) {
    required == [] || exists r :: r in required && Passes(held, r, sensitive)
  }

  // ---- Shapes --------------------------------------------------------------------------

  predicate IsLetter(c: char) { 'a' <= Lower(c) <= 'z' }

  predicate IsSegment(s: string) {
    s != "" && IsLetter(s[0]) && forall i :: 0 <= i < |s| ==> IsLetter(s[i]) || '0' <= s[i] <= '9'
  }

  predicate Segments(pieces: seq<string>) { forall i :: 0 <= i < |pieces| ==> IsSegment(pieces[i]) }

  /** A node something can require: dotted segments and no wildcard. */
  predicate Concrete(p: Permission) { Segments(Split(p, '.')) }

  /** `isValidPermission`. */
  predicate IsValid(p: Permission) {
    var pieces := Split(p, '.');
    var n := |pieces| - 1;
    p == "*" || Concrete(p) || (n > 0 && Segments(pieces[..n]) && pieces[n] == "*")
  }

  /** A valid pattern with a wildcard is a concrete node, `.` and `*`. */
  lemma WildcardShape(p: Permission) returns (node: Permission)
    requires IsValid(p) && p != "*" && !Concrete(p)
    ensures Concrete(node) && p == node + ".*"
  {
    var pieces := Split(p, '.');
    var n := |pieces| - 1;
    SplitIs(p, '.');
    node := Join(pieces[..n], ".");
    SplitJoin(pieces[..n], '.');
    assert pieces == pieces[..n] + [pieces[n]];
    JoinLast(pieces[..n], pieces[n]);
  }

  predicate IsNodeChar(c: char) { LetterCode(c) || 48 <= c as int <= 57 || c == '.' }

  predicate LetterCode(c: char) { 65 <= c as int <= 90 || 97 <= c as int <= 122 }

  /** Character by character: letters, digits and dots, a letter first and after every dot. */
  predicate NodeText(p: string) {
    && p != "" && LetterCode(p[0]) && (forall i :: 0 <= i < |p| ==> IsNodeChar(p[i]))
    && (forall i :: 0 <= i < |p| && p[i] == '.' ==> i + 1 < |p| && LetterCode(p[i + 1]))
  }

  /** The text of a node, seen from its first segment, which may have started earlier. */
  predicate RestText(p: string) {
    && (forall i :: 0 <= i < |p| ==> IsNodeChar(p[i]))
    && (forall i :: 0 <= i < |p| && p[i] == '.' ==> i + 1 < |p| && LetterCode(p[i + 1]))
  }

  predicate RestOfSegment(s: string) { forall i :: 0 <= i < |s| ==> IsLetter(s[i]) || '0' <= s[i] <= '9' }

  lemma {:induction false} RestIs(p: string)
    ensures RestText(p) <==> RestOfSegment(Split(p, '.')[0]) && Segments(Split(p, '.')[1..])
  {
    if p != "" {
      var rest := Split(p[1..], '.');
      RestIs(p[1..]);
      assert RestText(p) <==> IsNodeChar(p[0]) && (p[0] == '.' ==> |p| > 1 && LetterCode(p[1])) && RestText(p[1..]);
      if p[0] == '.' {
        FirstOfSplit(p[1..]);
        assert Split(p, '.')[1..] == rest && rest == [rest[0]] + rest[1..];
        assert Segments(rest) <==> IsSegment(rest[0]) && Segments(rest[1..]);
      } else {
        assert Split(p, '.')[0] == [p[0]] + rest[0] && Split(p, '.')[1..] == rest[1..];
        OneCharMore(p[0], rest[0]);
      }
    }
  }

  lemma OneCharMore(c: char, s: string)
    ensures RestOfSegment([c] + s) <==> (IsLetter(c) || '0' <= c <= '9') && RestOfSegment(s)
  {
    forall i | 0 <= i < |s| ensures ([c] + s)[i + 1] == s[i] {}
    assert ([c] + s)[0] == c;
  }

  lemma FirstOfSplit(p: string)
    ensures Split(p, '.')[0] != "" <==> p != "" && p[0] != '.'
    ensures p != "" && p[0] != '.' ==> Split(p, '.')[0][0] == p[0]
  {
  }

  /** A node is concrete exactly when its text has that shape. */
  lemma ConcreteIff(p: Permission)
    ensures Concrete(p) <==> NodeText(p)
  {
    var pieces := Split(p, '.');
    RestIs(p);
    FirstOfSplit(p);
    assert pieces == [pieces[0]] + pieces[1..];
    assert Segments(pieces) <==> IsSegment(pieces[0]) && Segments(pieces[1..]);
  }

  /** And a pattern is valid exactly when it is the star, a concrete node, or one followed by
      a dot and a star. */
  lemma ValidIff(p: Permission)
    ensures IsValid(p) <==> p == "*" || NodeText(p) || exists base :: NodeText(base) && p == base + ".*"
  {
    ConcreteIff(p);
    if IsValid(p) && p != "*" && !Concrete(p) {
      var base := WildcardShape(p);
      ConcreteIff(base);
    }
    if base :| NodeText(base) && p == base + ".*" {
      ConcreteIff(base);
      SplitAt(base, "*");
      assert p == base + "." + "*";
      SplitPiece("*", "", '.');
      var pieces, n := Split(base, '.'), |Split(base, '.')|;
      assert Split(p, '.') == pieces + ["*"] && (pieces + ["*"])[..n] == pieces;
    }
  }

  lemma {:induction false} SplitAt(a: string, b: string)
    ensures Split(a + "." + b, '.') == Split(a, '.') + Split(b, '.')
  {
    var all := a + "." + b;
    if a == "" {
      assert all[1..] == b;
    } else {
      SplitAt(a[1..], b);
      var x, y := Split(a[1..], '.'), Split(b, '.');
      assert all[0] == a[0] && all[1..] == a[1..] + "." + b;
      OnSplits(a[0], x, y);
    }
  }

  /** Splitting one character more, in front of pieces. */
  function ConsSplit(c: char, rest: seq<string>): seq<string>
    requires rest != []
  {
    if c == '.' then [""] + rest else [[c] + rest[0]] + rest[1..]
  }

  lemma OnSplits(c: char, x: seq<string>, y: seq<string>)
    requires x != []
    ensures ConsSplit(c, x + y) == ConsSplit(c, x) + y
  {
    assert (x + y)[0] == x[0] && (x + y)[1..] == x[1..] + y;
  }

  lemma {:induction false} JoinLast(pieces: seq<string>, last: string)
    requires pieces != []
    ensures Join(pieces + [last], ".") == Join(pieces, ".") + "." + last
  {
    if |pieces| > 1 {
      assert (pieces + [last])[1..] == pieces[1..] + [last];
      JoinLast(pieces[1..], last);
    } else {
      assert (pieces + [last])[1..] == [last];
    }
  }

  /** One more segment keeps a node concrete. */
  lemma Deeper(node: Permission, segment: string)
    requires Concrete(node) && IsSegment(segment)
    ensures Concrete(node + "." + segment)
  {
    var pieces := Split(node, '.');
    SplitIs(node, '.');
    JoinLast(pieces, segment);
    assert '.' !in segment;
    SplitJoin(pieces + [segment], '.');
  }

  lemma ConcreteIsNoWildcard(p: Permission)
    requires Concrete(p)
    ensures !EndsInWildcard(p) && p != "*"
  {
    var pieces := Split(p, '.');
    SplitIs(p, '.');
    LastCharacter(pieces);
  }

  lemma {:induction false} LastCharacter(pieces: seq<string>)
    requires pieces != [] && Segments(pieces)
    ensures var s := Join(pieces, "."); s != "" && s[|s| - 1] != '*'
  {
    if |pieces| > 1 {
      LastCharacter(pieces[1..]);
    }
  }

  // ---- Matching ------------------------------------------------------------------------

  /** Matching is a partial order on all strings, with `*` on top. */
  lemma MatchesIsAnOrder(a: Permission, b: Permission, c: Permission)
    ensures Matches(a, a) && Matches("*", a)
    ensures Matches(a, b) && Matches(b, a) ==> a == b
    ensures Matches(a, b) && Matches(b, c) ==> Matches(a, c)
  {
    if Matches(a, b) && a != b && a != "*" {
      var under := a[..|a| - 1];
      assert under[|under| - 1] == '.' == b[|under| - 1];
      if b == "*" {
        assert false;
      } else if EndsInWildcard(b) {
        assert under <= b[..|b| - 1];
      }
    }
  }

  /** On all strings: the same, the star, or a wildcard and whatever goes on from its base's dot. */
  lemma MatchesIff(held: Permission, required: Permission)
    ensures Matches(held, required) <==>
              || held == required || held == "*"
              || exists base, rest :: held == base + ".*" && required == base + "." + rest
  {
    if EndsInWildcard(held) {
      var base := held[..|held| - 2];
      assert held == base + ".*" && held[..|held| - 1] == base + ".";
      if held[..|held| - 1] <= required {
        assert required == base + "." + required[|base| + 1..];
      }
    }
    if base, rest :| held == base + ".*" && required == base + "." + rest {
      assert held[..|held| - 1] == base + "." <= required;
    }
  }

  /** Strictly below, at any depth. */
  predicate Below(base: Permission, node: Permission) {
    var b, n := Split(base, '.'), Split(node, '.');
    |b| < |n| && n[..|b|] == b
  }

  /** A wildcard reaches every node below its base, however deep, and no other. */
  lemma WildcardReaches(base: Permission, node: Permission)
    requires Concrete(base) && Concrete(node)
    ensures Matches(base + ".*", node) <==> Below(base, node)
  {
    var b, n, held := Split(base, '.'), Split(node, '.'), base + ".*";
    ConcreteIsNoWildcard(node);
    assert EndsInWildcard(held) && held[..|held| - 1] == base + ".";
    SplitIs(base, '.');
    SplitIs(node, '.');
    if Matches(held, node) {
      var rest := node[|base| + 1..];
      assert node == base + "." + rest;
      SplitAt(base, rest);
    }
    if Below(base, node) {
      assert n == b + n[|b|..];
      JoinParts(b, n[|b|..]);
    }
  }

  lemma {:induction false} JoinParts(a: seq<string>, b: seq<string>)
    requires a != [] && b != []
    ensures Join(a + b, ".") == Join(a, ".") + "." + Join(b, ".")
  {
    if |a| == 1 {
      assert (a + b)[1..] == b;
    } else {
      assert (a + b)[1..] == a[1..] + b;
      JoinParts(a[1..], b);
    }
  }

  /** What an account may do: a node it holds by name; and, unless that is sensitive, any node
      at all under the star, or any below a base whose wildcard it holds. */
  lemma HasPermissionIff(held: seq<Permission>, node: Permission, sensitive: set<Permission>)
    requires AllValid(held) && Concrete(node)
    ensures HasPermission(held, node, sensitive) <==>
              || node in held
              || (node !in sensitive
                  && ("*" in held || exists base :: Concrete(base) && base + ".*" in held && Below(base, node)))
  {
    if node !in sensitive {
      forall h | h in held && Matches(h, node) && h != node && h != "*"
        ensures exists base :: Concrete(base) && base + ".*" in held && Below(base, node)
      {
        if Concrete(h) {
          ConcreteIsNoWildcard(h);
        } else {
          var base := WildcardShape(h);
          WildcardReaches(base, node);
        }
      }
      if base :| Concrete(base) && base + ".*" in held && Below(base, node) {
        WildcardReaches(base, node);
      }
    }
  }

  /** What a valid pattern grants is never nothing. */
  lemma Inhabited(p: Permission) returns (node: Permission)
    requires IsValid(p)
    ensures Concrete(node) && Matches(p, node)
  {
    if p == "*" {
      node := "a";
    } else if Concrete(p) {
      node := p;
    } else {
      var base := WildcardShape(p);
      Deeper(base, "a");
      node := base + "." + "a";
      assert p[..|p| - 1] == base + "." <= node;
    }
  }

  ghost predicate BothMatch(a: Permission, b: Permission, node: Permission) {
    Concrete(node) && Matches(a, node) && Matches(b, node)
  }

  /** The symmetric test decides whether two patterns share a concrete node. */
  lemma OverlapIsSharing(a: Permission, b: Permission)
    requires IsValid(a) && IsValid(b)
    ensures Overlaps(a, b) <==> exists node :: BothMatch(a, b, node)
  {
    if Matches(a, b) {
      var node := Inhabited(b);
      MatchesIsAnOrder(a, b, node);
      assert BothMatch(a, b, node);
    } else if Matches(b, a) {
      var node := Inhabited(a);
      MatchesIsAnOrder(b, a, node);
      assert BothMatch(a, b, node);
    }
    if node :| BothMatch(a, b, node) {
      SharingNests(a, b, node);
    }
  }

  lemma SharingNests(a: Permission, b: Permission, node: Permission)
    requires Matches(a, node) && Matches(b, node)
    ensures Overlaps(a, b)
  {
    if a != node && b != node && a != "*" && b != "*" {
      var x, y := a[..|a| - 1], b[..|b| - 1];
      if |x| <= |y| {
        assert x == node[..|x|] == y[..|x|] == b[..|x|];
      } else {
        assert y == node[..|y|] == x[..|y|] == a[..|y|];
      }
    }
  }

  /** So what two patterns grant is nested or disjoint. */
  lemma NestedOrDisjoint(a: Permission, b: Permission, node: Permission)
    requires IsValid(a) && IsValid(b) && Concrete(node)
    ensures Matches(a, b) ==> (Matches(b, node) ==> Matches(a, node))
    ensures Matches(b, a) ==> (Matches(a, node) ==> Matches(b, node))
    ensures !Overlaps(a, b) ==> !(Matches(a, node) && Matches(b, node))
  {
    MatchesIsAnOrder(a, b, node);
    MatchesIsAnOrder(b, a, node);
    if Matches(a, node) && Matches(b, node) {
      SharingNests(a, b, node);
    }
  }

  // ---- Holding -------------------------------------------------------------------------

  /** Each of these is at least matched by something there. */
  ghost predicate Covered(held: seq<Permission>, more: seq<Permission>) {
    forall h :: h in held ==> exists m :: m in more && Matches(m, h)
  }

  /** Holding more, or holding the same under wider patterns, loses no ordinary node. */
  lemma HoldingIsMonotone(held: seq<Permission>, more: seq<Permission>, required: Permission,
                          sensitive: set<Permission>)
    requires HasPermission(held, required, sensitive)
    ensures (forall h :: h in held ==> h in more) ==> HasPermission(more, required, sensitive)
    ensures Covered(held, more) && required !in sensitive ==> HasPermission(more, required, sensitive)
  {
    if required !in sensitive {
      var h :| h in held && Matches(h, required);
      if Covered(held, more) {
        var m :| m in more && Matches(m, h);
        MatchesIsAnOrder(m, h, required);
      }
    }
  }

  /** A sensitive node is held exactly when it is listed; no wildcard reaches it. */
  lemma SensitiveIsExact(held: seq<Permission>, more: seq<Permission>, required: Permission, sensitive: set<Permission>)
    requires required in sensitive && (required in held <==> required in more)
    ensures HasPermission(held, required, sensitive) <==> HasPermission(more, required, sensitive)
    ensures forall p :: p in held && p != required ==>
              (HasPermission(held, required, sensitive) <==> HasPermission(Except(held, p), required, sensitive))
  {
    forall p | p in held && p != required
      ensures required in held <==> required in Except(held, p)
    {
      ExceptIs(held, p, required);
    }
  }

  function Except(held: seq<Permission>, p: Permission): seq<Permission> {
    if held == [] then [] else (if held[0] == p then [] else [held[0]]) + Except(held[1..], p)
  }

  lemma {:induction false} ExceptIs(held: seq<Permission>, p: Permission, q: Permission)
    ensures q in Except(held, p) <==> q in held && q != p
  {
    if held != [] {
      ExceptIs(held[1..], p, q);
      assert held == [held[0]] + held[1..];
    }
  }

  ghost predicate AllValid(patterns: seq<Permission>) { forall p :: p in patterns ==> IsValid(p) }

  ghost predicate SomeMatches(patterns: seq<Permission>, node: Permission) {
    exists p :: p in patterns && Matches(p, node)
  }

  /** Some pattern asked for that is not sensitive matches it. */
  ghost predicate SomeOrdinaryMatches(required: seq<Permission>, sensitive: set<Permission>, node: Permission) {
    exists r :: r in required && r !in sensitive && Matches(r, node)
  }

  ghost predicate Shared(held: seq<Permission>, required: seq<Permission>, sensitive: set<Permission>,
                         node: Permission) {
    Concrete(node) && SomeMatches(held, node) && SomeOrdinaryMatches(required, sensitive, node)
  }

  /** The proxy gate opens when it names nothing, when a sensitive node it names is itself held,
      or when some concrete node is both held and asked for by an ordinary pattern. */
  lemma GateIsSharing(held: seq<Permission>, required: seq<Permission>, sensitive: set<Permission>)
    requires AllValid(held) && AllValid(required)
    ensures HasAnyPermission(held, required, sensitive) <==>
              || required == []
              || (exists r :: r in required && r in sensitive && r in held)
              || (exists node :: Shared(held, required, sensitive, node))
  {
    if required != [] && HasAnyPermission(held, required, sensitive) {
      var r :| r in required && Passes(held, r, sensitive);
      if r !in sensitive {
        var h :| h in held && Overlaps(h, r);
        OverlapIsSharing(h, r);
        var node :| BothMatch(h, r, node);
        assert Shared(held, required, sensitive, node);
      }
    }
    if r :| r in required && r in sensitive && r in held {
      assert Passes(held, r, sensitive);
    }
    if node :| Shared(held, required, sensitive, node) {
      var h :| h in held && Matches(h, node);
      var r :| r in required && r !in sensitive && Matches(r, node);
      SharingNests(h, r, node);
      assert Passes(held, r, sensitive);
    }
  }

  /** On a concrete node the proxy gate and the operation gate are one. */
  lemma GatesAgree(held: seq<Permission>, node: Permission, sensitive: set<Permission>)
    requires Concrete(node)
    ensures HasAnyPermission(held, [node], sensitive) <==> HasPermission(held, node, sensitive)
  {
    ConcreteIsNoWildcard(node);
    assert node in [node];
    forall h | h in held ensures Overlaps(h, node) <==> Matches(h, node) {
    }
    assert HasAnyPermission(held, [node], sensitive) <==> Passes(held, node, sensitive);
  }

  // ---- What a user holds ---------------------------------------------------------------

  /** The grants of all roles one after another. */
  function Grants(roles: seq<seq<Permission>>): seq<Permission> {
    if roles == [] then [] else roles[0] + Grants(roles[1..])
  }

  lemma {:induction false} GrantsIs(roles: seq<seq<Permission>>, p: Permission)
    ensures p in Grants(roles) <==> exists i :: 0 <= i < |roles| && p in roles[i]
  {
    if roles != [] {
      GrantsIs(roles[1..], p);
      if p in Grants(roles[1..]) {
        var i :| 0 <= i < |roles[1..]| && p in roles[1..][i];
        assert p in roles[i + 1];
      }
      assert forall i :: 0 < i < |roles| ==> roles[i] == roles[1..][i - 1];
    }
  }

  ghost predicate Distinct(s: seq<Permission>) { forall i, j :: 0 <= i < j < |s| ==> s[i] != s[j] }

  ghost predicate SameMembers(a: seq<Permission>, b: seq<Permission>) { forall p :: p in a <==> p in b }

  lemma OneMore(out: seq<Permission>, base: seq<Permission>, p: Permission)
    requires Distinct(out) && SameMembers(out, base)
    ensures p in out ==> SameMembers(out, base + [p])
    ensures p !in out ==> Distinct(out + [p]) && SameMembers(out + [p], base + [p])
  {
  }

  /** Each grant once; the owner's roles give way to `*`, ad-hoc grants never do. */
  method EffectivePermissions(isOwner: bool, roles: seq<seq<Permission>>, extra: seq<Permission>)
    returns (out: seq<Permission>)
    ensures Distinct(out)
    ensures SameMembers(out, (if isOwner then ["*"] else Grants(roles)) + extra)
    ensures isOwner ==> out != [] && out[0] == "*"
  {
    out := if isOwner then ["*"] else [];
    var all := (if isOwner then [] else Grants(roles)) + extra;
    ghost var goal := out + all;
    ghost var start := |out|;
    var i := 0;
    while i < |all|
      invariant 0 <= i <= |all| && Distinct(out) && SameMembers(out, goal[..start + i])
      invariant isOwner ==> out != [] && out[0] == "*"
    {
      assert goal[..start + i + 1] == goal[..start + i] + [all[i]];
      OneMore(out, goal[..start + i], all[i]);
      if all[i] !in out {
        out := out + [all[i]];
      }
      i := i + 1;
    }
    assert goal[..start + i] == goal;
    assert goal == (if isOwner then ["*"] else Grants(roles)) + extra;
  }

  /** Roles union together: an account may do what one of its roles or its ad-hoc grants
      allows, and nothing else. */
  lemma RolesUnion(out: seq<Permission>, roles: seq<seq<Permission>>, extra: seq<Permission>, required: Permission,
                   sensitive: set<Permission>)
    requires SameMembers(out, Grants(roles) + extra)
    ensures HasPermission(out, required, sensitive) <==>
            HasPermission(extra, required, sensitive)
            || exists i :: 0 <= i < |roles| && HasPermission(roles[i], required, sensitive)
  {
    if HasPermission(out, required, sensitive) {
      var h :| h in out && (if required in sensitive then h == required else Matches(h, required));
      GrantsIs(roles, h);
    }
    if i :| 0 <= i < |roles| && HasPermission(roles[i], required, sensitive) {
      var h :| h in roles[i] && (if required in sensitive then h == required else Matches(h, required));
      GrantsIs(roles, h);
      assert h in out;
    }
    if HasPermission(extra, required, sensitive) {
      var h :| h in extra && (if required in sensitive then h == required else Matches(h, required));
      assert h in out;
    }
  }
}
