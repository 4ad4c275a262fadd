/** Lexical containment: what `FileManager::resolve_safe_path` lets through.

An absolute path is the sequence of its components below "/". The filesystem's part, canonical and
weakly_canonical, enters as the normalised path it yields. */
module Paths {
  import opened Wrappers
  import opened Text

  type Path = seq<Bytes>

  /** A proper file name. */
  predicate IsName(c: Bytes) { c != [] && c != "." && c != ".." && '/' !in c }

  predicate AllNames(p: Path) { forall i | 0 <= i < |p| :: IsName(p[i]) }

  /** A normalised path: names only, but for the empty last component a trailing slash leaves. */
  predicate Normal(p: Path) {
    p == [] || (AllNames(p[..|p| - 1]) && (p[|p| - 1] == [] || IsName(p[|p| - 1])))
  }

  function CommonPrefix(a: Path, b: Path): (k: nat)
    ensures k <= |a| && k <= |b| && a[..k] == b[..k]
    ensures k < |a| && k < |b| ==> a[k] != b[k]
  {
    if a == [] || b == [] || a[0] != b[0] then 0
    else
      var k := 1 + CommonPrefix(a[1..], b[1..]);
      assert a[..k] == [a[0]] + a[1..][..k - 1] && b[..k] == [b[0]] + b[1..][..k - 1];
      k
  }

  /** How far up the components lead: names count one, "..", minus one, empty and "." nothing. */
  function Depth(p: Path): int {
    if p == [] then 0
    else (if p[0] == ".." then -1 else if p[0] == [] || p[0] == "." then 0 else 1) + Depth(p[1..])
  }

  function Ups(n: nat): Path { if n == 0 then [] else [".."] + Ups(n - 1) }

  /** path::lexically_relative for two absolute paths, as section 30.10.8.4.11 of ISO/IEC 14882:2017 has
      it since the library issues LWG 3070 and LWG 3096; the empty path is []. */
  function Relative(p: Path, base: Path): Path {
    var k := CommonPrefix(p, base);
    var a, n := p[k..], Depth(base[k..]);
    if a == [] && base[k..] == [] then ["."]
    else if n < 0 then []
    else if n == 0 && (a == [] || a[0] == []) then ["."]
    else Ups(n) + a
  }

  /** path::string(). */
  function Join(p: Path): Bytes {
    if p == [] then [] else if |p| == 1 then p[0] else p[0] + "/" + Join(p[1..])
  }

  /** The three tests on the relative path. */
  predicate Inside(root: Path, candidate: Path) {
    var rel := Relative(candidate, root);
    rel != [] && !(".." <= Join(rel)) && !("/" <= Join(rel))
  }

  /** resolve_safe_path: `canonical` is what weakly_canonical yields, or None if it fails. */
  function ResolveSafePath(root: Path, filename: Bytes, canonical: Option<Path>): Option<Path> {
    if filename == [] then None
    else if '\0' in filename then None
    else if filename[0] == '/' then None
    else
      match canonical
      case None => None
      case Some(candidate) => if Inside(root, candidate) then Some(candidate) else None
  }

  // ---------------------------------------------------------------- containment is exact

  lemma {:induction false} DepthOfNames(p: Path)
    requires AllNames(p)
    ensures Depth(p) == |p|
  {
    if p != [] { DepthOfNames(p[1..]); }
  }

  lemma {:induction false} PrefixIsCommon(a: Path, b: Path)
    requires b <= a
    ensures CommonPrefix(a, b) == |b|
  {
    if b != [] {
      assert b[1..] <= a[1..];
      PrefixIsCommon(a[1..], b[1..]);
    }
  }

  /** The head of a joined path is the head of its first component. */
  lemma JoinHead(p: Path)
    requires p != []
    ensures p[0] <= Join(p)
    ensures '/' !in p[0] && p[0] != [] ==> (".." <= Join(p) <==> ".." <= p[0]) && !("/" <= Join(p))
  {
    var s := Join(p);
    if p[0] != [] {
      assert s[0] == p[0][0];
      if |p| > 1 && |p[0]| == 1 {
        assert s[1] == '/';
      } else if |p[0]| > 1 {
        assert s[..2] == p[0][..2];
      }
    }
  }

  lemma UpsLeadOut(n: nat, a: Path)
    requires n > 0
    ensures ".." <= Join(Ups(n) + a)
  {
    assert (Ups(n) + a)[0] == "..";
    JoinHead(Ups(n) + a);
  }

  /** The test accepts exactly the paths that have the root's components as a prefix and whose next
      component, if any, does not begin with "..". */
  lemma InsideIsContainment(root: Path, candidate: Path)
    requires AllNames(root) && Normal(candidate)
    ensures Inside(root, candidate) <==>
      root <= candidate && (|candidate| > |root| ==> !(".." <= candidate[|root|]))
  {
    var k := CommonPrefix(candidate, root);
    var a := candidate[k..];
    DepthOfNames(root[k..]);
    if root <= candidate {
      PrefixIsCommon(candidate, root);
      assert root[k..] == [];
      if a != [] && a[0] != [] {
        assert IsName(a[0]);
        assert Ups(0) + a == a;
        JoinHead(a);
      } else {
        assert Relative(candidate, root) == ["."] && Join(["."]) == "." && "."[0] != '/';
        assert |candidate| > |root| ==> candidate[|root|] == [];
      }
    } else {
      assert k < |root| by {
        assert candidate[..k] == root[..k];
      }
      UpsLeadOut(|root| - k, a);
    }
  }

  /** resolve_safe_path yields a path exactly for a non-empty relative name without NUL whose
      canonical form lies inside the root. */
  lemma SafePathsAreContained(root: Path, filename: Bytes, canonical: Option<Path>, p: Path)
    requires AllNames(root) && (canonical.Some? ==> Normal(canonical.value))
    ensures ResolveSafePath(root, filename, canonical) == Some(p) <==>
      && filename != [] && '\0' !in filename && filename[0] != '/' && canonical == Some(p)
      && root <= p && (|p| > |root| ==> !(".." <= p[|root|]))
  {
    if canonical.Some? { InsideIsContainment(root, canonical.value); }
  }

  // ---------------------------------------------------------------- and the relative path leads back

  /** path::lexically_normal of an absolute path, without trailing slashes. */
  function Normalise(done: Path, p: Path): Path
    decreases |p|
  {
    if p == [] then done
    else if p[0] == [] || p[0] == "." then Normalise(done, p[1..])
    else if p[0] == ".." then Normalise(if done == [] then [] else done[..|done| - 1], p[1..])
    else Normalise(done + [p[0]], p[1..])
  }

  function NamesOf(p: Path): Path { if p != [] && p[|p| - 1] == [] then p[..|p| - 1] else p }

  lemma {:induction false} NormaliseNames(done: Path, p: Path, rest: Path)
    requires AllNames(p)
    ensures Normalise(done, p + rest) == Normalise(done + p, rest)
    decreases |p|
  {
    if p == [] {
      assert p + rest == rest && done + p == done;
    } else {
      assert (p + rest)[1..] == p[1..] + rest;
      NormaliseNames(done + [p[0]], p[1..], rest);
      assert done + [p[0]] + p[1..] == done + p;
    }
  }

  lemma {:induction false} NormaliseUps(done: Path, n: nat, rest: Path)
    requires n <= |done|
    ensures Normalise(done, Ups(n) + rest) == Normalise(done[..|done| - n], rest)
    decreases n
  {
    if n == 0 {
      assert Ups(0) + rest == rest && done[..|done|] == done;
    } else {
      assert (Ups(n) + rest)[1..] == Ups(n - 1) + rest;
      NormaliseUps(done[..|done| - 1], n - 1, rest);
      assert done[..|done| - 1][..|done| - n] == done[..|done| - n];
    }
  }

  lemma NormaliseNormal(done: Path, p: Path)
    requires Normal(p)
    ensures Normalise(done, p) == done + NamesOf(p)
  {
    if p != [] {
      var names := NamesOf(p);
      var last := p[|names|..];
      assert p == names + last;
      forall i | 0 <= i < |names| ensures IsName(names[i]) {
        if i < |p| - 1 { assert p[..|p| - 1][i] == names[i]; }
      }
      NormaliseNames(done, names, last);
      assert last == [] || last == [[]];
    }
  }

  lemma NormalTail(p: Path, k: nat)
    requires Normal(p) && k <= |p|
    ensures Normal(p[k..])
    ensures p != [] && k < |p| ==> NamesOf(p) == p[..k] + NamesOf(p[k..])
  {
    if k < |p| {
      forall i | 0 <= i < |p[k..]| - 1 ensures IsName(p[k..][i]) {
        assert p[..|p| - 1][i + k] == p[k..][i];
      }
    }
  }

  /** root / lexically_relative(candidate, root) normalises back to the candidate, for every
      normalised candidate, inside the root or not. */
  lemma RelativeLeadsBack(root: Path, candidate: Path)
    requires AllNames(root) && Normal(candidate)
    ensures Normalise([], root + Relative(candidate, root)) == NamesOf(candidate)
  {
    hide Normal, NamesOf, Normalise, Relative, Ups;
    var k := CommonPrefix(candidate, root);
    var a := candidate[k..];
    RelativeShape(root, candidate);
    NormaliseNames([], root, Relative(candidate, root));
    assert [] + root == root;
    if k == |root| && (a == [] || a[0] == []) {
      assert root == candidate[..k];
      DotStays(root);
      InsideRootItself(root, candidate);
    } else {
      UpAndDown(root, candidate, k);
    }
  }

  lemma UpAndDown(root: Path, candidate: Path, k: nat)
    requires AllNames(root) && Normal(candidate) && k <= |root| && k <= |candidate| && candidate[..k] == root[..k]
    ensures Normalise(root, Ups(|root| - k) + candidate[k..]) == NamesOf(candidate)
  {
    hide Normal, NamesOf, Normalise, Ups;
    NormalTail(candidate, k);
    NormaliseUps(root, |root| - k, candidate[k..]);
    assert root[..|root| - (|root| - k)] == root[..k];
    NormaliseNormal(root[..k], candidate[k..]);
    SplitNames(candidate, k);
  }

  lemma RelativeShape(root: Path, candidate: Path)
    requires AllNames(root)
    ensures var k := CommonPrefix(candidate, root);
      var a := candidate[k..];
      Relative(candidate, root) == if k == |root| && (a == [] || a[0] == []) then ["."] else Ups(|root| - k) + a
  {
    DepthOfNames(root[CommonPrefix(candidate, root)..]);
  }

  lemma DotStays(p: Path)
    ensures Normalise(p, ["."]) == p
  {
    assert ["."][1..] == [];
  }

  lemma SplitNames(p: Path, k: nat)
    requires Normal(p) && k <= |p| && AllNames(p[..k])
    ensures p[..k] + NamesOf(p[k..]) == NamesOf(p)
  {
    if k == |p| { NamesAreNames(p[..k]); assert p == p[..k]; }
  }

  lemma InsideRootItself(root: Path, candidate: Path)
    requires AllNames(root) && Normal(candidate) && root <= candidate
    requires |candidate| == |root| || candidate[|root|] == []
    ensures NamesOf(candidate) == root
  {
    if |candidate| == |root| {
      assert candidate == root;
      NamesAreNames(root);
    } else {
      NormalTail(candidate, |root|);
      EmptyIsLast(candidate[|root|..]);
      assert candidate[..|root|] == root;
    }
  }

  lemma NamesAreNames(p: Path)
    requires AllNames(p)
    ensures NamesOf(p) == p
  {
  }

  lemma EmptyIsLast(a: Path)
    requires Normal(a) && a != [] && a[0] == []
    ensures |a| == 1 && NamesOf(a) == []
  {
    if |a| > 1 { FirstIsName(a); }
  }

  lemma FirstIsName(a: Path)
    requires Normal(a) && |a| > 1
    ensures IsName(a[0])
  {
    assert a[..|a| - 1][0] == a[0];
  }
}
