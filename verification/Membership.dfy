// internal/membership/membership.go: which objects belong to a dependency, and
// how per-dependency failures feed the owner verdict.
module Membership {
  import opened Core
  import opened Reducer

  // A parsed label selector: its canonical text and what it matches.
  datatype Selector = Selector(text: string, matches: Labels -> bool)

  datatype Scope = Namespaced | Root

  datatype Dependency = Dependency(
    name: string, gvk: GVK, scope: Scope,
    selector: Option<Selector>,
    namespaces: Option<string -> bool>,
    emptySetPolicy: EmptySetPolicy, suspendPolicy: SuspendPolicy)
  {
    predicate Admits(ns: string, labels: Labels) {
      && (namespaces.Some? ==> namespaces.value(ns))
      && (selector.Some? ==> selector.value.matches(labels))
    }

    predicate AdmitsObj(o: Obj) { Admits(o.ns, o.labels) }
  }

  // A structural failure of one dependency; the name is empty only for
  // owner-wide failures.
  datatype Error = Error(name: string, group: string, version: string, kind: string, reason: string, err: string)

  function NewError(name: string, gvk: GVK, reason: string, err: string): Error {
    Error(name, gvk.group, gvk.version, gvk.kind, reason, err)
  }

  function FailedRollup(name: string, gvk: GVK, reason: string): DependencyStatus {
    DependencyStatus(name, gvk.group, gvk.version, gvk.kind, IsUnknown, reason, ZERO)
  }

  function StandIn(e: Error): DependencyStatus {
    FailedRollup(e.name, GVK(e.group, e.version, e.kind), e.reason)
  }

  function Names(errs: seq<Error>): set<string> {
    set i | 0 <= i < |errs| && errs[i].name != "" :: errs[i].name
  }

  // The first error recorded under a name.
  function FirstNamed(errs: seq<Error>, n: string): Error
    requires n in Names(errs)
  {
    if errs[0].name == n then errs[0] else FirstNamed(errs[1..], n)
  }

  lemma {:induction false} FirstNamedIsFirst(errs: seq<Error>, n: string)
    requires n in Names(errs)
    ensures exists i :: 0 <= i < |errs| && errs[i] == FirstNamed(errs, n) && errs[i].name == n
                        && forall k :: 0 <= k < i ==> errs[k].name != n
  {
    if errs[0].name == n {
      assert errs[0] == FirstNamed(errs, n);
    } else {
      var i :| 0 <= i < |errs| && errs[i].name == n;
      assert errs[1..][i - 1].name == n;
      FirstNamedIsFirst(errs[1..], n);
      var j :| 0 <= j < |errs[1..]| && errs[1..][j] == FirstNamed(errs[1..], n) && errs[1..][j].name == n
               && forall k :: 0 <= k < j ==> errs[1..][k].name != n;
      assert errs[j + 1] == FirstNamed(errs, n);
      forall k | 0 <= k < j + 1 ensures errs[k].name != n {
        if k > 0 { assert errs[1..][k - 1].name != n; }
      }
    }
  }

  // perDep plus a stand-in for every named failure that has no rollup.
  function WithStandIns(perDep: Rollups, errs: seq<Error>): Rollups {
    map n | n in perDep.Keys + Names(errs) :: if n in perDep then perDep[n] else StandIn(FirstNamed(errs, n))
  }

  // e is the earliest error of its name.
  ghost predicate Earliest(errs: seq<Error>, e: Error) {
    exists i :: 0 <= i < |errs| && errs[i] == e && forall k :: 0 <= k < i ==> errs[k].name != e.name
  }

  // A name has a rollup if it had one, or some error bears it; what it had it
  // keeps, and otherwise it is Unknown, with the earliest error's target and
  // reason and no members.
  lemma StandInsSay(perDep: Rollups, errs: seq<Error>, n: string)
    ensures var all := WithStandIns(perDep, errs);
            && (n in all <==> n in perDep || (n != "" && exists e :: e in errs && e.name == n))
            && (n in perDep ==> all[n] == perDep[n])
            && (n in all && n !in perDep ==>
                  exists e :: Earliest(errs, e) && e.name == n
                    && all[n] == DependencyStatus(n, e.group, e.version, e.kind, IsUnknown, e.reason, Summary(0, 0, 0, 0, 0, 0, 0, 0)))
  {
    assert n in Names(errs) <==> n != "" && exists e :: e in errs && e.name == n by {
      if e :| e in errs && e.name == n && n != "" {
        var i :| 0 <= i < |errs| && errs[i] == e;
        assert errs[i].name != "";
      }
    }
    if n in Names(errs) && n !in perDep {
      FirstNamedIsFirst(errs, n);
      assert Earliest(errs, FirstNamed(errs, n));
    }
  }

  method RollupsOf(perDep: Rollups, errs: seq<Error>) returns (out: Rollups)
    ensures out == WithStandIns(perDep, errs)
  {
    out := perDep;
    assert Names(errs[..0]) == {};
    for i := 0 to |errs|
      invariant out == WithStandIns(perDep, errs[..i])
    {
      var e := errs[i];
      StandInGrows(perDep, errs, i);
      if e.name == "" {
        continue;
      }
      if e.name in out {
        continue;
      }
      out := out[e.name := StandIn(e)];
    }
    assert errs[..|errs|] == errs;
  }

  lemma StandInGrows(perDep: Rollups, errs: seq<Error>, i: nat)
    requires i < |errs|
    ensures var e, m := errs[i], WithStandIns(perDep, errs[..i]);
            WithStandIns(perDep, errs[..i + 1]) == if e.name == "" || e.name in m then m else m[e.name := StandIn(e)]
  {
    NamesGrow(errs, i);
  }

  lemma NamesGrow(errs: seq<Error>, i: nat)
    requires i < |errs|
    ensures Names(errs[..i + 1]) == Names(errs[..i]) + (if errs[i].name == "" then {} else {errs[i].name})
    ensures forall n :: n in Names(errs[..i]) ==> FirstNamed(errs[..i + 1], n) == FirstNamed(errs[..i], n)
    ensures errs[i].name != "" && errs[i].name !in Names(errs[..i]) ==> FirstNamed(errs[..i + 1], errs[i].name) == errs[i]
  {
    var a, e := errs[..i], errs[i];
    assert errs[..i + 1] == a + [e];
    NamesAppend(a, e);
    forall n | n in Names(a) ensures FirstNamed(a + [e], n) == FirstNamed(a, n) { FirstAppend(a, e, n); }
    if e.name != "" && e.name !in Names(a) { FirstAppend(a, e, e.name); }
  }

  lemma NamesAppend(a: seq<Error>, e: Error)
    ensures Names(a + [e]) == Names(a) + (if e.name == "" then {} else {e.name})
  {
    forall n ensures n in Names(a + [e]) <==> n in Names(a) || (n == e.name && n != "") {
      if n in Names(a) {
        var i :| 0 <= i < |a| && a[i].name != "" && a[i].name == n;
        assert (a + [e])[i].name == n;
      }
      if n == e.name && n != "" { assert (a + [e])[|a|].name == n; }
    }
  }

  lemma {:induction false} FirstAppend(a: seq<Error>, e: Error, n: string)
    requires n in Names(a + [e])
    ensures n in Names(a) ==> FirstNamed(a + [e], n) == FirstNamed(a, n)
    ensures n !in Names(a) ==> FirstNamed(a + [e], n) == e
  {
    if a != [] && a[0].name != n {
      var i :| 0 <= i < |a + [e]| && (a + [e])[i].name == n && n != "";
      assert (a + [e])[1..] == a[1..] + [e];
      assert (a[1..] + [e])[i - 1].name == n;
      assert n in Names(a) <==> n in Names(a[1..]) by {
        if n in Names(a) {
          var k :| 0 <= k < |a| && a[k].name == n;
          assert a[1..][k - 1].name == n;
        }
        if n in Names(a[1..]) {
          var k :| 0 <= k < |a[1..]| && a[1..][k].name == n;
          assert a[k + 1].name == n;
        }
      }
      FirstAppend(a[1..], e, n);
    } else if a != [] {
      assert a[0].name in Names(a);
      assert (a + [e])[0] == a[0];
    }
  }
}
