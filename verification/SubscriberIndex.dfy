// internal/watcher/subscriber_index.go: the two-way subscription index.
module SubscriberIndexes {
  import opened Core

  // A nil selector admits any labels, a nil namespace filter any namespace.
  datatype Matcher = Matcher(selector: Option<Labels -> bool>, namespaces: Option<string -> bool>) {
    predicate Admit(o: Obj) {
      && (namespaces.Some? ==> namespaces.value(o.ns))
      && (selector.Some? ==> selector.value(o.labels))
    }
  }

  datatype Subscriber = Subscriber(owner: OwnerKey, matchers: seq<Matcher>) {
    // No matchers at all admits everything.
    predicate Match(o: Obj) {
      |matchers| == 0 || exists i :: 0 <= i < |matchers| && matchers[i].Admit(o)
    }
  }

  // The value of the index: both nested maps.
  datatype Index = Index(byGVK: map<GVK, map<OwnerKey, Subscriber>>, byOwner: map<OwnerKey, set<GVK>>) {

    // The abstraction: a table with at most one subscriber per (GVK, owner).
    ghost function Row(g: GVK, o: OwnerKey): Option<Subscriber> {
      if g in byGVK && o in byGVK[g] then Some(byGVK[g][o]) else None
    }

    predicate Has(g: GVK, o: OwnerKey) {
      o in byOwner && g in byOwner[o]
    }

    // The two maps are exact inverses, and every subscriber is stored under
    // its own owner.
    ghost predicate Wf() {
      forall g, o :: Row(g, o).Some? == Has(g, o) && (Row(g, o).Some? ==> Row(g, o).value.owner == o)
    }

    // No inner map is left empty.
    ghost predicate Tight() {
      && (forall g :: g in byGVK ==> byGVK[g].Keys != {})
      && (forall o :: o in byOwner ==> byOwner[o] != {})
    }

    function Owners(g: GVK): set<OwnerKey> {
      if g in byGVK then byGVK[g].Keys else {}
    }

    function GVKs(o: OwnerKey): set<GVK> {
      if o in byOwner then byOwner[o] else {}
    }

    function Add(g: GVK, sub: Subscriber): Index {
      Index(
        byGVK[g := (if g in byGVK then byGVK[g] else map[])[sub.owner := sub]],
        byOwner[sub.owner := GVKs(sub.owner) + {g}])
    }

    function Remove(g: GVK, o: OwnerKey): Index {
      Index(
        if g !in byGVK then byGVK
        else if byGVK[g].Keys - {o} == {} then byGVK - {g}
        else byGVK[g := byGVK[g] - {o}],
        DropLink(byOwner, o, g))
    }

    // Remove of every GVK in gs for one owner.
    function Forget(gs: set<GVK>, o: OwnerKey): Index {
      Index(
        map g | g in byGVK && !(g in gs && byGVK[g].Keys - {o} == {}) :: if g in gs then byGVK[g] - {o} else byGVK[g],
        if GVKs(o) - gs == {} then byOwner - {o} else byOwner[o := GVKs(o) - gs])
    }

    // Clear of every GVK in gs.
    function ClearAll(gs: set<GVK>): Index {
      Index(
        byGVK - gs,
        map o | o in byOwner && byOwner[o] - gs != {} :: byOwner[o] - gs)
    }

    function Clear(g: GVK): Index {
      Index(byGVK - {g}, Unlink(byOwner, Owners(g), g))
    }
  }

  function DropLink(links: map<OwnerKey, set<GVK>>, o: OwnerKey, g: GVK): map<OwnerKey, set<GVK>> {
    if o !in links then links
    else if links[o] - {g} == {} then links - {o}
    else links[o := links[o] - {g}]
  }

  function Unlink(links: map<OwnerKey, set<GVK>>, owners: set<OwnerKey>, g: GVK): map<OwnerKey, set<GVK>> {
    map o | o in links && !(o in owners && links[o] - {g} == {}) :: if o in owners then links[o] - {g} else links[o]
  }

  lemma UnlinkStep(links: map<OwnerKey, set<GVK>>, owners: set<OwnerKey>, o: OwnerKey, g: GVK)
    requires o !in owners
    ensures Unlink(links, owners + {o}, g) == DropLink(Unlink(links, owners, g), o, g)
  {
  }

  const EmptyIndex: Index := Index(map[], map[])

  lemma AddRows(x: Index, g: GVK, sub: Subscriber)
    requires x.Wf()
    ensures x.Add(g, sub).Wf()
    ensures forall h, o :: x.Add(g, sub).Row(h, o) == if h == g && o == sub.owner then Some(sub) else x.Row(h, o)
  {
    var y := x.Add(g, sub);
    forall h, o
      ensures y.Row(h, o) == if h == g && o == sub.owner then Some(sub) else x.Row(h, o)
      ensures y.Has(h, o) == (x.Has(h, o) || (h == g && o == sub.owner))
    {
    }
    forall h, o ensures y.Row(h, o).Some? == y.Has(h, o) && (y.Row(h, o).Some? ==> y.Row(h, o).value.owner == o) {
      assert x.Row(h, o).Some? == x.Has(h, o);
    }
  }

  lemma AddCounts(x: Index, g: GVK, sub: Subscriber)
    requires x.Wf()
    ensures x.Add(g, sub).byGVK.Keys == x.byGVK.Keys + {g}
    ensures |x.Add(g, sub).byGVK[g]| == |x.Owners(g)| + (if x.Has(g, sub.owner) then 0 else 1)
    ensures forall h :: h in x.byGVK && h != g ==> x.Add(g, sub).byGVK[h] == x.byGVK[h]
  {
    var y := x.Add(g, sub);
    assert y.byGVK[g].Keys == x.Owners(g) + {sub.owner};
    assert x.Row(g, sub.owner).Some? == x.Has(g, sub.owner);
  }

  lemma RemoveRows(x: Index, g: GVK, o: OwnerKey)
    requires x.Wf()
    ensures x.Remove(g, o).Wf()
    ensures forall h, p :: x.Remove(g, o).Row(h, p) == if h == g && p == o then None else x.Row(h, p)
  {
    var y := x.Remove(g, o);
    forall h, p
      ensures y.Row(h, p) == if h == g && p == o then None else x.Row(h, p)
      ensures y.Has(h, p) == (x.Has(h, p) && !(h == g && p == o))
    {
    }
    forall h, p ensures y.Row(h, p).Some? == y.Has(h, p) && (y.Row(h, p).Some? ==> y.Row(h, p).value.owner == p) {
      assert x.Row(h, p).Some? == x.Has(h, p);
    }
  }

  lemma ClearRows(x: Index, g: GVK)
    requires x.Wf()
    ensures x.Clear(g).Wf()
    ensures forall h, o :: x.Clear(g).Row(h, o) == if h == g then None else x.Row(h, o)
  {
    var y := x.Clear(g);
    forall h, p
      ensures y.Row(h, p) == if h == g then None else x.Row(h, p)
      ensures y.Has(h, p) == (x.Has(h, p) && h != g)
    {
      assert x.Row(g, p).Some? == x.Has(g, p);
      assert p in x.Owners(g) <==> x.Has(g, p);
    }
    forall h, p ensures y.Row(h, p).Some? == y.Has(h, p) && (y.Row(h, p).Some? ==> y.Row(h, p).value.owner == p) {
      assert x.Row(h, p).Some? == x.Has(h, p);
    }
  }

  lemma ForgetRows(x: Index, gs: set<GVK>, o: OwnerKey)
    requires x.Wf()
    ensures x.Forget(gs, o).Wf()
    ensures forall h, p :: x.Forget(gs, o).Row(h, p) == if h in gs && p == o then None else x.Row(h, p)
  {
    var y := x.Forget(gs, o);
    forall h, p
      ensures y.Row(h, p) == if h in gs && p == o then None else x.Row(h, p)
      ensures y.Has(h, p) == (x.Has(h, p) && !(h in gs && p == o))
    {
      if h in x.byGVK && p in x.byGVK[h] && p != o { assert p in x.byGVK[h].Keys - {o}; }
      if h in x.GVKs(o) && h !in gs { assert h in x.GVKs(o) - gs; }
    }
    forall h, p ensures y.Row(h, p).Some? == y.Has(h, p) && (y.Row(h, p).Some? ==> y.Row(h, p).value.owner == p) {
      assert x.Row(h, p).Some? == x.Has(h, p);
    }
  }

  lemma ForgetStep(x: Index, gs: set<GVK>, g: GVK, o: OwnerKey)
    requires x.Wf() && x.Tight() && g !in gs && x.Has(g, o)
    ensures x.Forget(gs, o).Remove(g, o) == x.Forget(gs + {g}, o)
  {
    assert x.Row(g, o).Some? == x.Has(g, o);
    assert g in x.GVKs(o) - gs;
    var y, z := x.Forget(gs, o).Remove(g, o), x.Forget(gs + {g}, o);
    assert y.byGVK == z.byGVK;
    assert x.GVKs(o) - (gs + {g}) == x.GVKs(o) - gs - {g};
    assert y.byOwner == z.byOwner;
  }

  lemma ForgetNone(x: Index, o: OwnerKey)
    requires x.Tight()
    ensures x.Forget({}, o) == x
  {
    assert x.Forget({}, o).byGVK == x.byGVK;
    assert x.GVKs(o) - {} == x.GVKs(o);
    assert x.Forget({}, o).byOwner == x.byOwner;
  }

  lemma ClearAllRows(x: Index, gs: set<GVK>)
    requires x.Wf()
    ensures x.ClearAll(gs).Wf() && (x.Tight() ==> x.ClearAll(gs).Tight())
    ensures forall h, p :: x.ClearAll(gs).Row(h, p) == if h in gs then None else x.Row(h, p)
  {
    var y := x.ClearAll(gs);
    forall h, p
      ensures y.Row(h, p) == if h in gs then None else x.Row(h, p)
      ensures y.Has(h, p) == (x.Has(h, p) && h !in gs)
    {
      if x.Has(h, p) && h !in gs { assert h in x.byOwner[p] - gs; }
    }
    forall h, p ensures y.Row(h, p).Some? == y.Has(h, p) && (y.Row(h, p).Some? ==> y.Row(h, p).value.owner == p) {
      assert x.Row(h, p).Some? == x.Has(h, p);
    }
  }

  lemma ClearNone(x: Index)
    requires x.Tight()
    ensures x.ClearAll({}) == x
  {
    forall o | o in x.byOwner ensures x.byOwner[o] - {} == x.byOwner[o] {
    }
    assert x.ClearAll({}).byOwner == x.byOwner;
  }

  lemma ClearAllStep(x: Index, gs: set<GVK>, g: GVK)
    requires x.Wf() && x.Tight()
    ensures x.ClearAll(gs).Clear(g) == x.ClearAll(gs + {g})
  {
    var y, z := x.ClearAll(gs), x.ClearAll(gs + {g});
    assert y.byGVK - {g} == z.byGVK;
    forall o | o in y.byOwner ensures o in y.Owners(g) <==> g in y.byOwner[o] {
      assert x.Row(g, o).Some? == x.Has(g, o);
    }
    var u := Unlink(y.byOwner, y.Owners(g), g);
    forall o | o in x.byOwner ensures o in u <==> o in z.byOwner
      ensures o in u ==> u[o] == z.byOwner[o]
    {
      assert x.byOwner[o] - (gs + {g}) == x.byOwner[o] - gs - {g};
      if o in y.byOwner && o !in y.Owners(g) { assert y.byOwner[o] - {g} == y.byOwner[o]; }
    }
    assert u == z.byOwner;
  }

  // No operation leaves an empty inner map behind.
  lemma StaysTight(x: Index, g: GVK, o: OwnerKey, sub: Subscriber)
    requires x.Tight()
    ensures x.Add(g, sub).Tight() && x.Remove(g, o).Tight() && x.Clear(g).Tight()
  {
    assert sub.owner in x.Add(g, sub).byGVK[g];
    assert g in x.Add(g, sub).byOwner[sub.owner];
    assert x.Remove(g, o).Tight();
    assert x.Clear(g).Tight();
  }

  method Matches(sub: Subscriber, obj: Obj) returns (admitted: bool)
    ensures admitted <==> sub.Match(obj)
  {
    if |sub.matchers| == 0 {
      return true;
    }
    for i := 0 to |sub.matchers|
      invariant forall k :: 0 <= k < i ==> !sub.matchers[k].Admit(obj)
    {
      if sub.matchers[i].Admit(obj) {
        return true;
      }
    }
    return false;
  }

  class SubscriberIndex {
    var byGVK: map<GVK, map<OwnerKey, Subscriber>>
    var byOwner: map<OwnerKey, set<GVK>>

    ghost function View(): Index
      reads this
    {
      Index(byGVK, byOwner)
    }

    ghost predicate Valid()
      reads this
    {
      View().Wf() && View().Tight()
    }

    constructor ()
      ensures Valid() && View() == EmptyIndex
    {
      byGVK, byOwner := map[], map[];
    }

    predicate Has(gvk: GVK, owner: OwnerKey)
      requires Valid()
      reads this
      ensures Has(gvk, owner) == View().Row(gvk, owner).Some?
    {
      assert View().Row(gvk, owner).Some? == View().Has(gvk, owner);
      owner in byOwner && gvk in byOwner[owner]
    }

    method Add(gvk: GVK, sub: Subscriber)
      requires Valid()
      modifies this
      ensures Valid() && View() == old(View()).Add(gvk, sub)
    {
      ghost var before := View();
      if gvk !in byGVK {
        byGVK := byGVK[gvk := map[]];
      }
      byGVK := byGVK[gvk := byGVK[gvk][sub.owner := sub]];
      if sub.owner !in byOwner {
        byOwner := byOwner[sub.owner := {}];
      }
      byOwner := byOwner[sub.owner := byOwner[sub.owner] + {gvk}];
      assert View() == before.Add(gvk, sub);
      AddRows(before, gvk, sub);
      StaysTight(before, gvk, sub.owner, sub);
    }

    method Remove(gvk: GVK, owner: OwnerKey)
      requires Valid()
      modifies this
      ensures Valid() && View() == old(View()).Remove(gvk, owner)
    {
      ghost var before := View();
      if gvk in byGVK {
        byGVK := byGVK[gvk := byGVK[gvk] - {owner}];
        if byGVK[gvk].Keys == {} {
          byGVK := byGVK - {gvk};
        }
      }
      UnlinkOwner(owner, gvk);
      assert View() == before.Remove(gvk, owner);
      RemoveRows(before, gvk, owner);
      StaysTight(before, gvk, owner, Subscriber(owner, []));
    }

    method UnlinkOwner(owner: OwnerKey, gvk: GVK)
      modifies this`byOwner
      ensures byOwner == DropLink(old(byOwner), owner, gvk)
    {
      if owner in byOwner {
        byOwner := byOwner[owner := byOwner[owner] - {gvk}];
        if byOwner[owner] == {} {
          byOwner := byOwner - {owner};
        }
      }
    }

    method ClearGVK(gvk: GVK)
      requires Valid()
      modifies this
      ensures Valid() && View() == old(View()).Clear(gvk)
    {
      ghost var before := View();
      var owners := if gvk in byGVK then byGVK[gvk].Keys else {};
      byGVK := byGVK - {gvk};
      UnlinkOwners(owners, gvk);
      assert View() == before.Clear(gvk);
      ClearRows(before, gvk);
      StaysTight(before, gvk, OwnerKey("", "", ""), Subscriber(OwnerKey("", "", ""), []));
    }

    method UnlinkOwners(owners: set<OwnerKey>, gvk: GVK)
      modifies this`byOwner
      ensures byOwner == Unlink(old(byOwner), owners, gvk)
    {
      ghost var links := byOwner;
      var todo := owners;
      while todo != {}
        invariant todo <= owners
        invariant byOwner == Unlink(links, owners - todo, gvk)
        decreases |todo|
      {
        var owner :| owner in todo;
        UnlinkStep(links, owners - todo, owner, gvk);
        assert owners - (todo - {owner}) == owners - todo + {owner};
        todo := todo - {owner};
        UnlinkOwner(owner, gvk);
      }
      assert owners - todo == owners;
    }

    // Each admitting owner once, in some order.
    method Subscribers(gvk: GVK, obj: Obj) returns (out: seq<OwnerKey>)
      requires Valid()
      ensures NoDuplicates(out)
      ensures forall o :: o in out <==> View().Row(gvk, o).Some? && View().Row(gvk, o).value.Match(obj)
    {
      out := [];
      if gvk !in byGVK {
        return;
      }
      var subs := byGVK[gvk];
      var todo := subs.Keys;
      while todo != {}
        invariant todo <= subs.Keys
        invariant NoDuplicates(out)
        invariant forall o :: o in out <==> o in subs.Keys - todo && subs[o].Match(obj)
        decreases |todo|
      {
        var owner :| owner in todo;
        todo := todo - {owner};
        var sub := subs[owner];
        assert View().Row(gvk, owner).Some?;
        var admitted := Matches(sub, obj);
        if admitted {
          out := out + [sub.owner];
        }
      }
    }

    // Every GVK of the owner once, in some order.
    method GVKsByOwner(owner: OwnerKey) returns (out: seq<GVK>)
      requires Valid()
      ensures NoDuplicates(out)
      ensures forall g :: g in out <==> View().Row(g, owner).Some?
    {
      out := [];
      if owner in byOwner {
        var todo := byOwner[owner];
        while todo != {}
          invariant todo <= byOwner[owner]
          invariant NoDuplicates(out)
          invariant forall g :: g in out <==> g in byOwner[owner] - todo
          decreases |todo|
        {
          var g :| g in todo;
          assert g !in out;
          todo := todo - {g};
          out := out + [g];
        }
      }
      forall g ensures g in out <==> View().Row(g, owner).Some? {
        assert View().Row(g, owner).Some? == View().Has(g, owner);
      }
    }
  }
}
