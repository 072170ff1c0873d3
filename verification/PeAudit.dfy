/** The auditor of the packaged PE closure: it follows imports with only the bundle to look in. */
module PeAudit {
  import opened Wrappers
  import opened PeClosure

  // ---------------------------------------------------------------- the audit's own closure

  /** What the audit reports: names of bundled files, and system names. */
  datatype Report = Report(bundled: set<string>, external: set<string>)

  /** `name` is a root or dependency DLL of a file in `s`. */
  ghost predicate Reported<F(!new)>(w: World<F>, s: set<F>, nameOf: F -> string, isDll: F -> bool, name: string) {
    || (exists f :: f in s && isDll(f) && nameOf(f) == name)
    || (exists f, n :: f in s && Needs(w, f, n) && Resolve(w, n).Some? && nameOf(Resolve(w, n).value) == name)
  }

  ghost predicate IsReport<F(!new)>(w: World<F>, s: set<F>, nameOf: F -> string, isDll: F -> bool, r: Report) {
    && (forall name :: name in r.bundled <==> Reported(w, s, nameOf, isDll, name))
    && IsExternal(w, s, r.external)
  }

  /** The first `i` imports of `f` are followed and reported. */
  ghost predicate Followed<F>(w: World<F>, f: F, i: nat, met: set<F>, nameOf: F -> string, r: Report)
    requires i <= |w.imports(f)|
  {
    forall k :: 0 <= k < i ==>
      var n := w.imports(f)[k];
      if w.system(n) then n in r.external
      else Resolve(w, n).Some? && Resolve(w, n).value in met && nameOf(Resolve(w, n).value) in r.bundled
  }

  function Elements<F>(q: seq<F>): set<F> {
    set f | f in q
  }

  ghost predicate Auditing<F(!new)>(w: World<F>, roots: seq<F>, nameOf: F -> string, isDll: F -> bool, done: set<F>,
      seen: set<F>, queue: seq<F>, r: Report) {
    && done <= seen
    && (forall f :: f in roots ==> f in seen || f in queue)
    && (forall f :: f in seen || f in queue ==> Inevitable(w, roots, f) && f in Universe(w, roots))
    && (forall f :: f in done ==>
      Followed(w, f, |w.imports(f)|, seen + Elements(queue), nameOf, r) && (isDll(f) ==> nameOf(f) in r.bundled))
    && (forall name :: name in r.bundled ==> Reported(w, seen, nameOf, isDll, name))
    && (forall n :: n in r.external ==> exists f :: f in seen && n in w.imports(f) && w.system(n))
  }

  lemma AuditStarts<F(!new)>(w: World<F>, roots: seq<F>, nameOf: F -> string, isDll: F -> bool)
    ensures Auditing(w, roots, nameOf, isDll, {}, {}, roots, Report({}, {}))
  {
    hide Resolve;
    forall f | f in roots
      ensures f in Universe(w, roots)
    {
      var i :| 0 <= i < |roots| && roots[i] == f;
    }
  }

  lemma FollowedStays<F>(w: World<F>, f: F, i: nat, met: set<F>, nameOf: F -> string, r: Report, met': set<F>,
      r': Report)
    requires i <= |w.imports(f)| && Followed(w, f, i, met, nameOf, r)
    requires met <= met' && r.bundled <= r'.bundled && r.external <= r'.external
    ensures Followed(w, f, i, met', nameOf, r')
  {
    hide Resolve;
  }

  lemma ReportedStays<F(!new)>(w: World<F>, s: set<F>, t: set<F>, nameOf: F -> string, isDll: F -> bool, name: string)
    requires s <= t && Reported(w, s, nameOf, isDll, name)
    ensures Reported(w, t, nameOf, isDll, name)
  {
    hide Resolve, Needs;
  }

  /** The head of the queue is new: it is seen, and reported if it is a DLL. */
  lemma AuditTakes<F(!new)>(w: World<F>, roots: seq<F>, nameOf: F -> string, isDll: F -> bool, seen: set<F>,
      queue: seq<F>, r: Report)
    requires Auditing(w, roots, nameOf, isDll, seen, seen, queue, r) && queue != []
    ensures queue[0] in Universe(w, roots)
    ensures queue[0] in seen ==> Auditing(w, roots, nameOf, isDll, seen, seen, queue[1..], r)
    ensures var r' := if isDll(queue[0]) then r.(bundled := r.bundled + {nameOf(queue[0])}) else r;
      && Auditing(w, roots, nameOf, isDll, seen, seen + {queue[0]}, queue[1..], r')
      && Followed(w, queue[0], 0, seen + {queue[0]} + Elements(queue[1..]), nameOf, r')
  {
    hide Resolve, Universe, Inevitable, Followed, Reported;
    var owner := queue[0];
    var r' := if isDll(owner) then r.(bundled := r.bundled + {nameOf(owner)}) else r;
    assert forall f :: f in queue <==> f == owner || f in queue[1..];
    assert seen + {owner} + Elements(queue[1..]) == seen + Elements(queue);
    forall f | f in seen
      ensures Followed(w, f, |w.imports(f)|, seen + Elements(queue), nameOf, r')
    {
      FollowedStays(w, f, |w.imports(f)|, seen + Elements(queue), nameOf, r, seen + Elements(queue), r');
    }
    forall name | name in r'.bundled
      ensures Reported(w, seen + {owner}, nameOf, isDll, name)
    {
      if name in r.bundled {
        ReportedStays(w, seen, seen + {owner}, nameOf, isDll, name);
      } else {
        OwnName(w, seen + {owner}, nameOf, isDll, owner);
      }
    }
    FollowsNothing(w, owner, seen + {owner} + Elements(queue[1..]), nameOf, r');
    if owner in seen {
      assert seen + Elements(queue) == seen + Elements(queue[1..]);
    }
  }

  lemma OwnName<F(!new)>(w: World<F>, s: set<F>, nameOf: F -> string, isDll: F -> bool, f: F)
    requires f in s && isDll(f)
    ensures Reported(w, s, nameOf, isDll, nameOf(f))
  {
  }

  lemma DependencyName<F(!new)>(w: World<F>, s: set<F>, nameOf: F -> string, isDll: F -> bool, f: F, n: string)
    requires f in s && Needs(w, f, n) && Resolve(w, n).Some?
    ensures Reported(w, s, nameOf, isDll, nameOf(Resolve(w, n).value))
  {
    hide Resolve;
  }

  lemma FollowsNothing<F>(w: World<F>, f: F, met: set<F>, nameOf: F -> string, r: Report)
    ensures Followed(w, f, 0, met, nameOf, r)
  {
  }

  lemma FollowsOne<F>(w: World<F>, f: F, i: nat, met: set<F>, nameOf: F -> string, r: Report)
    requires i < |w.imports(f)| && Followed(w, f, i, met, nameOf, r)
    requires var n := w.imports(f)[i];
      if w.system(n) then n in r.external
      else Resolve(w, n).Some? && Resolve(w, n).value in met && nameOf(Resolve(w, n).value) in r.bundled
    ensures Followed(w, f, i + 1, met, nameOf, r)
  {
    hide Resolve;
  }

  /** One import of the owner is dealt with: recorded as external, or queued and reported. */
  lemma AuditName<F(!new)>(w: World<F>, roots: seq<F>, nameOf: F -> string, isDll: F -> bool, done: set<F>,
      seen: set<F>, queue: seq<F>, r: Report, owner: F, i: nat, queue': seq<F>, r': Report)
    requires Auditing(w, roots, nameOf, isDll, done, seen, queue, r) && owner in seen && i < |w.imports(owner)|
    requires Followed(w, owner, i, seen + Elements(queue), nameOf, r)
    requires var n := w.imports(owner)[i];
      if w.system(n) then queue' == queue && r' == r.(external := r.external + {n})
      else
        && Resolve(w, n).Some? && queue' == queue + [Resolve(w, n).value]
        && r' == r.(bundled := r.bundled + {nameOf(Resolve(w, n).value)})
    ensures Auditing(w, roots, nameOf, isDll, done, seen, queue', r')
    ensures Followed(w, owner, i + 1, seen + Elements(queue'), nameOf, r')
  {
    hide Resolve, Universe, Inevitable, Followed, Reported;
    var n := w.imports(owner)[i];
    var met, met' := seen + Elements(queue), seen + Elements(queue');
    forall f | f in done
      ensures Followed(w, f, |w.imports(f)|, met', nameOf, r')
    {
      FollowedStays(w, f, |w.imports(f)|, met, nameOf, r, met', r');
    }
    FollowedStays(w, owner, i, met, nameOf, r, met', r');
    NeedsIs(w, owner, n);
    if !w.system(n) {
      InevitableStep(w, roots, owner, n);
      DependencyName(w, seen, nameOf, isDll, owner, n);
      assert Resolve(w, n).value in queue';
    }
    FollowsOne(w, owner, i, met', nameOf, r');
  }

  lemma AuditBreaks<F(!new)>(w: World<F>, roots: seq<F>, nameOf: F -> string, isDll: F -> bool, done: set<F>,
      seen: set<F>, queue: seq<F>, r: Report, owner: F, n: string)
    requires Auditing(w, roots, nameOf, isDll, done, seen, queue, r) && owner in seen
    requires Needs(w, owner, n) && Resolve(w, n).None?
    ensures Broken(w, roots)
  {
    hide Resolve, Universe, Inevitable, Followed, Reported;
    assert Inevitable(w, roots, owner);
  }

  lemma AuditFinishes<F(!new)>(w: World<F>, roots: seq<F>, nameOf: F -> string, isDll: F -> bool, done: set<F>,
      seen: set<F>, queue: seq<F>, r: Report, owner: F)
    requires Auditing(w, roots, nameOf, isDll, done, seen, queue, r) && seen == done + {owner}
    requires Followed(w, owner, |w.imports(owner)|, seen + Elements(queue), nameOf, r) &&
      (isDll(owner) ==> nameOf(owner) in r.bundled)
    ensures Auditing(w, roots, nameOf, isDll, seen, seen, queue, r)
  {
    hide Resolve, Universe, Inevitable, Followed, Reported;
  }

  /** Everything the finished files import, in one statement. */
  ghost predicate AllFollowed<F(!new)>(w: World<F>, s: set<F>, nameOf: F -> string, r: Report) {
    forall f, n :: f in s && n in w.imports(f) ==>
      if w.system(n) then n in r.external
      else Resolve(w, n).Some? && Resolve(w, n).value in s && nameOf(Resolve(w, n).value) in r.bundled
  }

  lemma FollowedAll<F(!new)>(w: World<F>, s: set<F>, nameOf: F -> string, r: Report)
    requires forall f :: f in s ==> Followed(w, f, |w.imports(f)|, s, nameOf, r)
    ensures AllFollowed(w, s, nameOf, r)
  {
    hide Resolve;
    forall f, n | f in s && n in w.imports(f)
      ensures if w.system(n) then n in r.external
              else Resolve(w, n).Some? && Resolve(w, n).value in s && nameOf(Resolve(w, n).value) in r.bundled
    {
      var k :| 0 <= k < |w.imports(f)| && w.imports(f)[k] == n;
      assert Followed(w, f, |w.imports(f)|, s, nameOf, r);
    }
  }

  lemma AuditCompletes<F(!new)>(w: World<F>, roots: seq<F>, nameOf: F -> string, isDll: F -> bool, seen: set<F>,
      r: Report)
    requires Auditing(w, roots, nameOf, isDll, seen, seen, [], r)
    ensures IsClosure(w, roots, seen) && !Broken(w, roots) && IsReport(w, seen, nameOf, isDll, r)
  {
    hide Resolve, Universe, Inevitable, Followed, Reported;
    assert seen + Elements([]) == seen;
    FollowedAll(w, seen, nameOf, r);
    hide Auditing;
    AuditedIsClosed(w, roots, nameOf, isDll, seen, r);
    AuditedReport(w, roots, nameOf, isDll, seen, r);
  }

  lemma AuditedIsClosed<F(!new)>(w: World<F>, roots: seq<F>, nameOf: F -> string, isDll: F -> bool, seen: set<F>,
      r: Report)
    requires Auditing(w, roots, nameOf, isDll, seen, seen, [], r) && AllFollowed(w, seen, nameOf, r)
    ensures IsClosure(w, roots, seen) && !Broken(w, roots)
  {
    hide Resolve, Universe, Followed, Reported;
    ClosedMeans(w, seen);
    assert Holds(seen, roots);
    forall f, n | Inevitable(w, roots, f) && Needs(w, f, n)
      ensures Resolve(w, n).Some?
    {
      assert f in seen;
    }
    hide Inevitable, IsClosed;
    forall t: set<F> | Holds(t, roots) && IsClosed(w, t)
      ensures seen <= t
    {
      InevitableIsIn(w, roots, seen, t);
    }
  }

  lemma AuditedReport<F(!new)>(w: World<F>, roots: seq<F>, nameOf: F -> string, isDll: F -> bool, seen: set<F>,
      r: Report)
    requires Auditing(w, roots, nameOf, isDll, seen, seen, [], r) && AllFollowed(w, seen, nameOf, r)
    ensures IsReport(w, seen, nameOf, isDll, r)
  {
    hide Resolve, Universe, Followed, Inevitable;
    forall name | Reported(w, seen, nameOf, isDll, name)
      ensures name in r.bundled
    {
    }
  }

  /** `verify_windows_dependency_closure_from_roots`. It fails exactly when a reachable file has a dependency
      the bundle lacks, and otherwise reports what is reachable. */
  method VerifyClosure<F(==,!new)>(w: World<F>, roots: seq<F>, nameOf: F -> string, isDll: F -> bool)
      returns (r: Option<Report>, ghost reached: set<F>)
    ensures r.None? <==> Broken(w, roots)
    ensures r.Some? ==> IsClosure(w, roots, reached) && IsReport(w, reached, nameOf, isDll, r.value)
  {
    hide *;
    var report := Report({}, {});
    var queue := roots;
    var seen: set<F> := {};
    AuditStarts(w, roots, nameOf, isDll);
    while queue != []
      invariant Auditing(w, roots, nameOf, isDll, seen, seen, queue, report)
      decreases Universe(w, roots) - seen, |queue|
    {
      AuditTakes(w, roots, nameOf, isDll, seen, queue, report);
      var owner := queue[0];
      queue := queue[1..];
      if owner in seen {
        continue;
      }
      ghost var done := seen;
      seen := seen + {owner};
      assert owner in Universe(w, roots) - done;
      assert Universe(w, roots) - seen < Universe(w, roots) - done;
      if isDll(owner) {
        report := report.(bundled := report.bundled + {nameOf(owner)});
      }
      var names := w.imports(owner);
      for i := 0 to |names|
        invariant Auditing(w, roots, nameOf, isDll, done, seen, queue, report)
        invariant Followed(w, owner, i, seen + Elements(queue), nameOf, report)
        invariant isDll(owner) ==> nameOf(owner) in report.bundled
      {
        var name := names[i];
        if w.system(name) {
          var recorded := report.(external := report.external + {name});
          AuditName(w, roots, nameOf, isDll, done, seen, queue, report, owner, i, queue, recorded);
          report := recorded;
          continue;
        }
        NeedsIs(w, owner, name);
        var dependency := FindCaseInsensitive(w, name);
        if dependency.None? {
          AuditBreaks(w, roots, nameOf, isDll, done, seen, queue, report, owner, name);
          return None, seen;
        }
        var bundled := report.(bundled := report.bundled + {nameOf(dependency.value)});
        AuditName(w, roots, nameOf, isDll, done, seen, queue, report, owner, i, queue + [dependency.value], bundled);
        report := bundled;
        queue := queue + [dependency.value];
      }
      AuditFinishes(w, roots, nameOf, isDll, done, seen, queue, report, owner);
    }
    AuditCompletes(w, roots, nameOf, isDll, seen, report);
    return Some(report), seen;
  }
}
