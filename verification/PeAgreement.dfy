/** A collected bundle passes its audit, and both report the same closure. */
module PeAgreement {
  import opened Wrappers
  import opened PeClosure
  import opened PeAudit

  /** A file of the finished package: a root, or the bundled copy of a dependency. A root DLL that another root
      imports is one file in `bin` and two nodes here, a root and a copy: both have the same imports and are
      reported under the same name, so the reported sets are those of the single file. */
  datatype BinFile<F> = Root(file: F) | Copy(name: string)

  /** Copies have the imports of their source. */
  function ContentImports<F>(w: World<F>, copied: map<string, F>, b: BinFile<F>): seq<string> {
    match b
    case Root(f) => w.imports(f)
    case Copy(name) => if name in copied then w.imports(copied[name]) else []
  }

  /** The audit looks in the bundle only. */
  function AuditWorld<F>(w: World<F>, copied: map<string, F>, bin: seq<Entry<BinFile<F>>>): World<BinFile<F>> {
    World((b: BinFile<F>) => ContentImports(w, copied, b), w.system, w.lower, [bin])
  }

  /** `bin` lists every copy under its name; whatever else it lists has other names. */
  ghost predicate IsBin<F>(w: World<F>, copied: map<string, F>, bin: seq<Entry<BinFile<F>>>) {
    && (forall key :: key in copied ==> Entry(key, Copy(key)) in bin)
    && (forall i, key :: 0 <= i < |bin| && key in copied && w.lower(bin[i].name) == w.lower(key) ==>
      bin[i] == Entry(key, Copy(key)))
  }

  function Packaged<F>(roots: seq<F>): (rs: seq<BinFile<F>>)
    ensures |rs| == |roots|
  {
    seq(|roots|, i requires 0 <= i < |roots| => Root(roots[i]))
  }

  /** What the audit has to reach: the packaged roots and all copies. */
  ghost predicate InPackage<F(!new)>(roots: seq<F>, copied: map<string, F>, b: BinFile<F>) {
    match b
    case Root(f) => f in roots
    case Copy(name) => name in copied
  }

  /** The file a package member stands for. */
  function Stands<F>(copied: map<string, F>, b: BinFile<F>): F
    requires b.Copy? ==> b.name in copied
  {
    match b
    case Root(f) => f
    case Copy(name) => copied[name]
  }

  /** A finished, coherent collection. */
  ghost predicate Collected<F(!new)>(w: World<F>, roots: seq<F>, reached: set<F>, c: Collection<F>) {
    && IsClosure(w, roots, reached) && Coherent(w, roots) && !Broken(w, roots)
    && Bundles(w, reached, c.copied) && IsExternal(w, reached, c.external)
  }

  lemma BinResolves<F>(w: World<F>, copied: map<string, F>, bin: seq<Entry<BinFile<F>>>, name: string, key: string)
    requires IsBin(w, copied, bin) && key in copied && w.lower(key) == w.lower(name)
    ensures Resolve(AuditWorld(w, copied, bin), name) == Some(Copy(key))
  {
    var a := AuditWorld(w, copied, bin);
    ExactMeans(bin, name);
    FoldedMeans(a, bin, name);
    assert Entry(key, Copy(key)) in bin;
    hide Exact, Folded;
    assert InDirectory(a, bin, name) == Some(Copy(key));
    assert Search(a, name, 0) == Some(Copy(key));
  }

  lemma ReachedIsInevitable<F(!new)>(w: World<F>, roots: seq<F>, reached: set<F>, f: F)
    requires IsClosure(w, roots, reached) && f in reached
    ensures Inevitable(w, roots, f)
  {
    hide Holds, IsClosed;
  }

  /** A needed name is bundled under one spelling, whose copy is the file the name resolves to. */
  lemma NeededIsCopied<F(!new)>(w: World<F>, roots: seq<F>, reached: set<F>, c: Collection<F>, f: F, n: string)
      returns (key: string)
    requires Collected(w, roots, reached, c) && f in reached && Needs(w, f, n)
    ensures key in c.copied && w.lower(key) == w.lower(n) && Resolve(w, n) == Some(c.copied[key])
    ensures n in c.copied ==> key == n
  {
    hide Resolve, Holds, IsClosed, Inevitable, Needs;
    assert Covered(w, c.copied, n);
    key :| key in c.copied && w.lower(key) == w.lower(n);
    var g :| g in reached && Needs(w, g, key);
    ReachedIsInevitable(w, roots, reached, f);
    ReachedIsInevitable(w, roots, reached, g);
  }

  /** Reachable files are the roots and the sources of the copies. */
  lemma ReachedAreBundled<F(!new)>(w: World<F>, roots: seq<F>, reached: set<F>, c: Collection<F>, f: F)
      returns (b: BinFile<F>)
    requires Collected(w, roots, reached, c) && f in reached
    ensures InPackage(roots, c.copied, b) && Stands(c.copied, b) == f
  {
    hide Resolve, Needs, Bundles, IsExternal, Broken, Coherent;
    var t := set g | g in reached && (g in roots || g in c.copied.Values);
    forall g, n | g in t && Needs(w, g, n) && Resolve(w, n).Some?
      ensures Resolve(w, n).value in t
    {
      var key := NeededIsCopied(w, roots, reached, c, g, n);
      assert c.copied[key] in c.copied.Values;
    }
    ClosedMeans(w, t);
    assert Holds(t, roots);
    assert f in t;
    if f in roots {
      b := Root(f);
    } else {
      var key :| key in c.copied && c.copied[key] == f;
      b := Copy(key);
    }
  }

  /** Members of the package stand for reachable files. */
  lemma PackageIsReached<F(!new)>(w: World<F>, roots: seq<F>, reached: set<F>, c: Collection<F>, b: BinFile<F>)
    requires Collected(w, roots, reached, c) && InPackage(roots, c.copied, b)
    ensures Stands(c.copied, b) in reached
    ensures ContentImports(w, c.copied, b) == w.imports(Stands(c.copied, b))
  {
    hide Resolve, Needs, IsExternal, Broken, Coherent;
    if b.Copy? {
      var f :| f in reached && Needs(w, f, b.name);
      assert Resolve(w, b.name) == Some(c.copied[b.name]);
    } else {
      var i :| 0 <= i < |roots| && roots[i] == b.file;
    }
  }

  /** Needs of a package member are needs of the file it stands for, and lead to a copy. */
  lemma PackageNeeds<F(!new)>(w: World<F>, roots: seq<F>, reached: set<F>, c: Collection<F>,
      bin: seq<Entry<BinFile<F>>>, b: BinFile<F>, n: string)
      returns (key: string)
    requires Collected(w, roots, reached, c) && IsBin(w, c.copied, bin) && InPackage(roots, c.copied, b)
    requires Needs(AuditWorld(w, c.copied, bin), b, n)
    ensures key in c.copied && Resolve(AuditWorld(w, c.copied, bin), n) == Some(Copy(key))
    ensures Needs(w, Stands(c.copied, b), n) && Resolve(w, n) == Some(c.copied[key])
  {
    hide Resolve, Collected, IsBin;
    PackageIsReached(w, roots, reached, c, b);
    key := NeededIsCopied(w, roots, reached, c, Stands(c.copied, b), n);
    BinResolves(w, c.copied, bin, n, key);
  }

  /** The audit cannot fail, and reaches at most the package. */
  lemma PackageIsClosed<F(!new)>(w: World<F>, roots: seq<F>, reached: set<F>, c: Collection<F>,
      bin: seq<Entry<BinFile<F>>>, s: set<BinFile<F>>)
    requires Collected(w, roots, reached, c) && IsBin(w, c.copied, bin)
    requires forall b :: b in s <==> InPackage(roots, c.copied, b)
    ensures IsClosed(AuditWorld(w, c.copied, bin), s) && Holds(s, Packaged(roots))
    ensures !Broken(AuditWorld(w, c.copied, bin), Packaged(roots))
  {
    hide Resolve, Collected, IsBin, AuditWorld;
    var a := AuditWorld(w, c.copied, bin);
    forall b, n | b in s && Needs(a, b, n)
      ensures Resolve(a, n).Some? && Resolve(a, n).value in s
    {
      var key := PackageNeeds(w, roots, reached, c, bin, b, n);
    }
    ClosedMeans(a, s);
    forall i | 0 <= i < |roots|
      ensures Packaged(roots)[i] in s
    {
      assert InPackage(roots, c.copied, Root(roots[i]));
    }
    hide IsClosed, Holds;
    forall b, n | Inevitable(a, Packaged(roots), b) && Needs(a, b, n)
      ensures Resolve(a, n).Some?
    {
      assert b in s;
    }
  }

  /** Whatever the audit reaches contains the whole package. */
  lemma PackageIsReachedByAudit<F(!new)>(w: World<F>, roots: seq<F>, reached: set<F>, c: Collection<F>,
      bin: seq<Entry<BinFile<F>>>, t: set<BinFile<F>>)
    requires Collected(w, roots, reached, c) && IsBin(w, c.copied, bin)
    requires Holds(t, Packaged(roots)) && IsClosed(AuditWorld(w, c.copied, bin), t)
    ensures forall b :: InPackage(roots, c.copied, b) ==> b in t
  {
    hide Resolve, IsBin, AuditWorld, Bundles, Broken, Coherent, IsExternal;
    var a := AuditWorld(w, c.copied, bin);
    forall f | f in roots
      ensures Root(f) in t
    {
      var i :| 0 <= i < |roots| && roots[i] == f;
      assert Packaged(roots)[i] in t;
    }
    var u := set f | f in reached && Present(roots, c.copied, t, f);
    forall f, n | f in u && Needs(w, f, n) && Resolve(w, n).Some?
      ensures Resolve(w, n).value in u
    {
      var b :| InPackage(roots, c.copied, b) && b in t && Stands(c.copied, b) == f;
      NeedsInAudit(w, roots, reached, c, bin, b, n);
      var key := PackageNeeds(w, roots, reached, c, bin, b, n);
      assert Copy(key) in t;
      assert Present(roots, c.copied, t, c.copied[key]);
    }
    ClosedMeans(w, u);
    forall i | 0 <= i < |roots|
      ensures roots[i] in u
    {
      assert InPackage(roots, c.copied, Root(roots[i])) && Stands(c.copied, Root(roots[i])) == roots[i];
    }
    assert Holds(u, roots);
    assert reached <= u;
    forall key | key in c.copied
      ensures Copy(key) in t
    {
      CopyIsPresent(w, roots, reached, c, bin, t, u, key);
    }
  }

  /** Some package member in `t` stands for `f`. */
  ghost predicate Present<F(!new)>(roots: seq<F>, copied: map<string, F>, t: set<BinFile<F>>, f: F) {
    exists b :: InPackage(roots, copied, b) && b in t && Stands(copied, b) == f
  }

  lemma NeedsInAudit<F(!new)>(w: World<F>, roots: seq<F>, reached: set<F>, c: Collection<F>,
      bin: seq<Entry<BinFile<F>>>, b: BinFile<F>, n: string)
    requires Collected(w, roots, reached, c) && InPackage(roots, c.copied, b)
    ensures Needs(AuditWorld(w, c.copied, bin), b, n) <==> Needs(w, Stands(c.copied, b), n)
  {
    hide Collected;
    PackageIsReached(w, roots, reached, c, b);
  }

  lemma CopyIsPresent<F(!new)>(w: World<F>, roots: seq<F>, reached: set<F>, c: Collection<F>,
      bin: seq<Entry<BinFile<F>>>, t: set<BinFile<F>>, u: set<F>, key: string)
    requires Collected(w, roots, reached, c) && IsBin(w, c.copied, bin) && key in c.copied
    requires IsClosed(AuditWorld(w, c.copied, bin), t)
    requires reached <= u && forall f :: f in u ==> Present(roots, c.copied, t, f)
    ensures Copy(key) in t
  {
    hide Resolve, IsBin, AuditWorld, Broken, Coherent, IsExternal, IsClosure, Needs;
    var a := AuditWorld(w, c.copied, bin);
    var f :| f in reached && Needs(w, f, key);
    assert Present(roots, c.copied, t, f);
    var b :| InPackage(roots, c.copied, b) && b in t && Stands(c.copied, b) == f;
    NeedsInAudit(w, roots, reached, c, bin, b, key);
    BinResolves(w, c.copied, bin, key, key);
  }

  /** A coherent collection passes its audit: looking only in the bundle, the auditor finds no missing
      dependency and reports exactly the bundled names with the root DLLs, and the same system names. */
  lemma AuditAgrees<F(!new)>(w: World<F>, roots: seq<F>, reached: set<F>, c: Collection<F>,
      bin: seq<Entry<BinFile<F>>>, nameOf: BinFile<F> -> string, isDll: BinFile<F> -> bool)
    requires Collected(w, roots, reached, c) && IsBin(w, c.copied, bin)
    requires forall key :: key in c.copied ==> nameOf(Copy(key)) == key
    ensures var a := AuditWorld(w, c.copied, bin);
      && !Broken(a, Packaged(roots))
      && forall s, r :: IsClosure(a, Packaged(roots), s) && IsReport(a, s, nameOf, isDll, r) ==>
           && r.external == c.external
           && forall name :: name in r.bundled <==>
                name in c.copied ||
                exists i :: 0 <= i < |roots| && isDll(Root(roots[i])) && nameOf(Root(roots[i])) == name
  {
    hide *;
    var a := AuditWorld(w, c.copied, bin);
    var package := PackageSet(roots, c.copied);
    PackageIsClosed(w, roots, reached, c, bin, package);
    forall s: set<BinFile<F>>, r: Report | IsClosure(a, Packaged(roots), s) && IsReport(a, s, nameOf, isDll, r)
      ensures r.external == c.external
      ensures forall name :: name in r.bundled <==>
        name in c.copied || exists i :: 0 <= i < |roots| && isDll(Root(roots[i])) && nameOf(Root(roots[i])) == name
    {
      ClosureParts(a, Packaged(roots), s, package);
      PackageIsReachedByAudit(w, roots, reached, c, bin, s);
      assert s == package;
      SameExternal(w, roots, reached, c, bin, s, nameOf, isDll, r);
      forall name: string
        ensures name in r.bundled <==>
          name in c.copied || exists i :: 0 <= i < |roots| && isDll(Root(roots[i])) && nameOf(Root(roots[i])) == name
      {
        SameName(w, roots, reached, c, bin, s, nameOf, isDll, r, name);
      }
    }
  }

  ghost function PackageSet<F(!new)>(roots: seq<F>, copied: map<string, F>): (s: set<BinFile<F>>)
    ensures forall b :: b in s <==> InPackage(roots, copied, b)
  {
    (set f | f in roots :: Root(f)) + (set key | key in copied :: Copy(key))
  }

  lemma ClosureParts<F(!new)>(w: World<F>, roots: seq<F>, s: set<F>, t: set<F>)
    requires IsClosure(w, roots, s) && Holds(t, roots) && IsClosed(w, t)
    ensures Holds(s, roots) && IsClosed(w, s) && s <= t
  {
    hide Holds, IsClosed;
  }

  lemma SameExternal<F(!new)>(w: World<F>, roots: seq<F>, reached: set<F>, c: Collection<F>,
      bin: seq<Entry<BinFile<F>>>, s: set<BinFile<F>>, nameOf: BinFile<F> -> string, isDll: BinFile<F> -> bool,
      r: Report)
    requires Collected(w, roots, reached, c) && forall b :: b in s <==> InPackage(roots, c.copied, b)
    requires IsReport(AuditWorld(w, c.copied, bin), s, nameOf, isDll, r)
    ensures r.external == c.external
  {
    hide Resolve, Needs, Bundles, IsClosure, Broken, Coherent, Reported;
    forall n | n in r.external
      ensures n in c.external
    {
      var b :| b in s && n in ContentImports(w, c.copied, b) && w.system(n);
      PackageIsReached(w, roots, reached, c, b);
    }
    forall n | n in c.external
      ensures n in r.external
    {
      var f :| f in reached && n in w.imports(f) && w.system(n);
      var b := ReachedAreBundled(w, roots, reached, c, f);
      PackageIsReached(w, roots, reached, c, b);
      assert n in AuditWorld(w, c.copied, bin).imports(b);
    }
  }

  lemma SameName<F(!new)>(w: World<F>, roots: seq<F>, reached: set<F>, c: Collection<F>, bin: seq<Entry<BinFile<F>>>,
      s: set<BinFile<F>>, nameOf: BinFile<F> -> string, isDll: BinFile<F> -> bool, r: Report, name: string)
    requires Collected(w, roots, reached, c) && IsBin(w, c.copied, bin)
    requires forall b :: b in s <==> InPackage(roots, c.copied, b)
    requires IsReport(AuditWorld(w, c.copied, bin), s, nameOf, isDll, r)
    requires forall key :: key in c.copied ==> nameOf(Copy(key)) == key
    ensures name in r.bundled <==>
      name in c.copied || exists i :: 0 <= i < |roots| && isDll(Root(roots[i])) && nameOf(Root(roots[i])) == name
  {
    hide *;
    ReportMeans(AuditWorld(w, c.copied, bin), s, nameOf, isDll, r, name);
    if name in r.bundled {
      NameIsKnown(w, roots, reached, c, bin, s, nameOf, isDll, name);
    }
    if name in c.copied {
      CopyIsReported(w, roots, reached, c, bin, s, nameOf, isDll, name);
    }
    if i :| 0 <= i < |roots| && isDll(Root(roots[i])) && nameOf(Root(roots[i])) == name {
      RootIsReported(AuditWorld(w, c.copied, bin), roots, c.copied, s, nameOf, isDll, i);
    }
  }

  lemma ReportMeans<F(!new)>(w: World<F>, s: set<F>, nameOf: F -> string, isDll: F -> bool, r: Report, name: string)
    requires IsReport(w, s, nameOf, isDll, r)
    ensures name in r.bundled <==> Reported(w, s, nameOf, isDll, name)
  {
    hide Reported, IsExternal;
  }

  /** A reported name is that of a copy or of a root DLL. */
  lemma NameIsKnown<F(!new)>(w: World<F>, roots: seq<F>, reached: set<F>, c: Collection<F>,
      bin: seq<Entry<BinFile<F>>>, s: set<BinFile<F>>, nameOf: BinFile<F> -> string, isDll: BinFile<F> -> bool,
      name: string)
    requires Collected(w, roots, reached, c) && IsBin(w, c.copied, bin)
    requires forall b :: b in s <==> InPackage(roots, c.copied, b)
    requires forall key :: key in c.copied ==> nameOf(Copy(key)) == key
    requires Reported(AuditWorld(w, c.copied, bin), s, nameOf, isDll, name)
    ensures name in c.copied || exists i :: 0 <= i < |roots| && isDll(Root(roots[i])) && nameOf(Root(roots[i])) == name
  {
    hide Resolve, Collected, AuditWorld, IsBin, Needs;
    var a := AuditWorld(w, c.copied, bin);
    if b :| b in s && isDll(b) && nameOf(b) == name {
      if b.Root? {
        var i :| 0 <= i < |roots| && roots[i] == b.file;
      }
    } else {
      var b, n :| b in s && Needs(a, b, n) && Resolve(a, n).Some? && nameOf(Resolve(a, n).value) == name;
      var key := PackageNeeds(w, roots, reached, c, bin, b, n);
    }
  }

  lemma CopyIsReported<F(!new)>(w: World<F>, roots: seq<F>, reached: set<F>, c: Collection<F>,
      bin: seq<Entry<BinFile<F>>>, s: set<BinFile<F>>, nameOf: BinFile<F> -> string, isDll: BinFile<F> -> bool,
      name: string)
    requires Collected(w, roots, reached, c) && IsBin(w, c.copied, bin)
    requires forall b :: b in s <==> InPackage(roots, c.copied, b)
    requires name in c.copied && nameOf(Copy(name)) == name
    ensures Reported(AuditWorld(w, c.copied, bin), s, nameOf, isDll, name)
  {
    hide *;
    var f := NeederOf(w, roots, reached, c, name);
    var b := ReachedAreBundled(w, roots, reached, c, f);
    NeedsInAudit(w, roots, reached, c, bin, b, name);
    BinResolves(w, c.copied, bin, name, name);
    NeededIsReported(AuditWorld(w, c.copied, bin), s, nameOf, isDll, b, name);
  }

  lemma NeederOf<F(!new)>(w: World<F>, roots: seq<F>, reached: set<F>, c: Collection<F>, name: string) returns (f: F)
    requires Collected(w, roots, reached, c) && name in c.copied
    ensures f in reached && Needs(w, f, name)
  {
    hide Resolve, IsClosure, Broken, Coherent, IsExternal, Needs;
    f :| f in reached && Needs(w, f, name);
  }

  lemma NeededIsReported<F(!new)>(w: World<F>, s: set<F>, nameOf: F -> string, isDll: F -> bool, b: F, n: string)
    requires b in s && Needs(w, b, n) && Resolve(w, n).Some?
    ensures Reported(w, s, nameOf, isDll, nameOf(Resolve(w, n).value))
  {
    hide Resolve, Needs;
  }

  lemma RootIsReported<F(!new)>(w: World<BinFile<F>>, roots: seq<F>, copied: map<string, F>, s: set<BinFile<F>>,
      nameOf: BinFile<F> -> string, isDll: BinFile<F> -> bool, i: nat)
    requires forall b :: b in s <==> InPackage(roots, copied, b)
    requires i < |roots| && isDll(Root(roots[i]))
    ensures Reported(w, s, nameOf, isDll, nameOf(Root(roots[i])))
  {
    hide Resolve, Needs;
    assert InPackage(roots, copied, Root(roots[i]));
  }
}
