/** The relationship as it is updated in place, one object map after the other. */
module Relationships {
  import opened Wrappers
  import opened PyStrings
  import opened Sequences
  import opened ModelData
  import opened RelationshipState
  import opened RelationshipLaws

  /** The loop from map k on, one map further. */
  lemma NextMap(w: World, deviceLocked: bool, p: Progress, relmap: seq<ObjMap>, k: nat)
    requires p.relids <= p.rel.Keys && k < |relmap|
    ensures var next := Process(w, deviceLocked, p, relmap[k]);
            ProcessAll(w, deviceLocked, p, relmap[k..])
            == if next.None? then None else ProcessAll(w, deviceLocked, next.value, relmap[k + 1..])
    ensures Renamed(p.seen, relmap[k..])
            == [relmap[k].(id := NewId(p.seen, relmap[k].id))]
                + Renamed(p.seen + multiset{relmap[k].id}, relmap[k + 1..])
  {
    hide Effect, NewId;
    assert relmap[k..][0] == relmap[k] && relmap[k..][1..] == relmap[k + 1..];
  }

  lemma NoMap(w: World, deviceLocked: bool, p: Progress)
    requires p.relids <= p.rel.Keys
    ensures ProcessAll(w, deviceLocked, p, []) == Some(p) && Renamed(p.seen, []) == []
  {
  }

  class Reconciler {
    const w: World
    const deviceLocked: bool
    var rel: Relation
    var numObjChanged: nat

    constructor (w: World, deviceLocked: bool, rel: Relation)
      ensures this.w == w && this.deviceLocked == deviceLocked && this.rel == rel && numObjChanged == 0
    {
      this.w, this.deviceLocked, this.rel, numObjChanged := w, deviceLocked, rel, 0;
    }

    method SetAttribute(id: string, name: string, value: Data)
      requires id in rel
      modifies this`rel
      ensures rel == old(rel)[id := old(rel)[id].(attrs := old(rel)[id].attrs[name := value])]
    {
      rel := rel[id := rel[id].(attrs := rel[id].attrs[name := value])];
    }

    /** The attributes in whatever order the map holds them; None when a comparison raises. */
    method UpdateObject(id: string, data: map<string, Data>) returns (changed: Option<bool>)
      requires id in rel
      modifies this
      ensures changed.Some? <==> Update(w, old(rel)[id], data).Some?
      ensures changed.Some? ==> var u := Update(w, old(rel)[id], data).value;
                                && changed.value == u.changed && rel == old(rel)[id := u.obj]
                                && numObjChanged == old(numObjChanged) + if u.changed then 1 else 0
      ensures changed.Some? && !old(rel)[id].lock.UpdatesLocked? ==>
        id in rel && forall n :: n in data && Concerns(w, old(rel)[id], data, n)
                       ==> n in rel[id].attrs && SameUpToOrder(rel[id].attrs[n], Wanted(w, data, n))
    {
      ghost var o, was := rel[id], rel;
      if rel[id].lock.UpdatesLocked? {
        assert was == was[id := o];
        return Some(false);
      }
      var todo, any := data.Keys, false;
      while todo != {}
        invariant todo <= data.Keys && id in rel
        invariant rel == was[id := o.(attrs := rel[id].attrs)] && rel[id].attrs.Keys == o.attrs.Keys
        invariant forall n :: n in o.attrs
                     ==> rel[id].attrs[n] == if n in todo then o.attrs[n] else Written(w, o, data).attrs[n]
        invariant any <==> exists n :: n in data && n !in todo && Writes(w, o, data, n)
        invariant forall n :: n in data && n !in todo && Applies(w, o, data, n) ==> Compared(w, o, data, n).Ok?
        invariant numObjChanged == old(numObjChanged)
      {
        var n :| n in todo;
        ghost var before := todo;
        todo := todo - {n};
        var value := Recoded(w, data[n]);
        if !StartsWith(n, "_") && value.Some? && n in rel[id].attrs && rel[id].attrs[n] != MARKER {
          assert Applies(w, o, data, n);
          var same := IsSameData(rel[id].attrs[n], value.value);
          if same.Err? {
            assert Raises(w, o, data);
            return None;
          }
          if !same.value {
            SetAttribute(id, n, value.value);
            any := true;
            assert Writes(w, o, data, n);
          }
        }
      }
      assert rel[id].attrs == Written(w, o, data).attrs;
      forall n | n in data && Concerns(w, o, data, n)
        ensures SameUpToOrder(Update(w, o, data).value.obj.attrs[n], Wanted(w, data, n)) {
        UpdateEstablishes(w, o, data, n);
      }
      if any { numObjChanged := numObjChanged + 1; }
      return Some(any);
    }

    method CreateRelObject(id: string, om: ObjMap) returns (changed: Option<bool>)
      modifies this
      ensures changed.Some? <==> Created(w, deviceLocked, old(rel), id, om).Some?
      ensures changed.Some? ==> var e := Created(w, deviceLocked, old(rel), id, om).value;
                                && changed.value == e.changed && rel == e.rel
                                && numObjChanged == old(numObjChanged) + if e.changed then 1 else 0
    {
      var made := w.make(om.modname, om.classname);
      if deviceLocked { return Some(false); }
      var added := id !in rel;
      if added { rel := rel[id := made]; }
      ghost var ready := rel;
      var up := UpdateObject(id, om.data);
      if up.None? { return None; }
      assert rel == old(rel)[id := Update(w, ready[id], om.data).value.obj];
      if !up.value && added { numObjChanged := numObjChanged + 1; }
      return Some(up.value || added);
    }

    /** What the loop does for one map that goes by id. */
    method Apply(id: string, om: ObjMap, known: bool, ghost p: Progress) returns (changed: Option<bool>)
      requires p.rel == rel && p.relids <= rel.Keys && id == NewId(p.seen, om.id) && known == (id in p.relids)
      modifies this
      ensures changed.Some? <==> Effect(w, deviceLocked, p, om).Some?
      ensures changed.Some? ==> var e := Effect(w, deviceLocked, p, om).value;
                                && changed.value == e.changed && rel == e.rel
                                && numObjChanged == old(numObjChanged) + if e.changed then 1 else 0
    {
      if known {
        if SameClass(rel[id], om) {
          changed := UpdateObject(id, om.data);
          return;
        }
        rel := rel - {id};
      }
      changed := CreateRelObject(id, om);
    }

    /** The final loop over the ids that were in no map. */
    method DeleteStale(relids: set<string>)
      requires relids <= rel.Keys
      modifies this`rel
      ensures rel == Stripped(old(rel), relids)
    {
      var left := relids;
      while left != {}
        invariant left <= relids
        invariant rel == Stripped(old(rel), relids - left)
      {
        var id :| id in left;
        left := left - {id};
        if rel[id].lock.Unlocked? {
          rel := rel - {id};
        }
      }
      assert relids - left == relids;
    }

    /** The maps come back with the ids the loop gave them. */
    method UpdateRelationship(relmap: seq<ObjMap>) returns (changed: Option<bool>, maps: seq<ObjMap>)
      modifies this
      ensures changed.Some? <==> Reconciled(w, deviceLocked, old(rel), relmap).Some?
      ensures changed.Some? ==> var p := Reconciled(w, deviceLocked, old(rel), relmap).value;
                                && changed.value == p.changed && rel == p.rel
                                && numObjChanged == old(numObjChanged) + p.count
                                && maps == Renamed(multiset{}, relmap)
    {
      hide Effect, NewId, Stripped, ProcessAll, Renamed;
      ghost var was := rel;
      var relids, seen: multiset<string>, any := rel.Keys, multiset{}, false;
      maps := [];
      assert relmap[0..] == relmap;
      var k := 0;
      while k < |relmap|
        invariant 0 <= k <= |relmap| && relids <= rel.Keys && numObjChanged >= old(numObjChanged)
        invariant ProcessAll(w, deviceLocked, Start(was), relmap)
                  == ProcessAll(w, deviceLocked, Progress(rel, relids, seen, any, numObjChanged - old(numObjChanged)),
                      relmap[k..])
        invariant maps + Renamed(seen, relmap[k..]) == Renamed(multiset{}, relmap)
      {
        ghost var p := Progress(rel, relids, seen, any, numObjChanged - old(numObjChanged));
        var om := relmap[k];
        NextMap(w, deviceLocked, p, relmap, k);
        var id := NewId(seen, om.id);
        ghost var after := Process(w, deviceLocked, p, om);
        var one := Apply(id, om, id in relids, p);
        if one.None? { return None, maps; }
        Regroup(maps, [om.(id := id)], Renamed(seen + multiset{om.id}, relmap[k + 1..]));
        maps := maps + [om.(id := id)];
        seen := seen + multiset{om.id};
        relids := relids - {id};
        any := any || one.value;
        k := k + 1;
        assert after == Some(Progress(rel, relids, seen, any, numObjChanged - old(numObjChanged)));
      }
      assert relmap[k..] == [];
      NoMap(w, deviceLocked, Progress(rel, relids, seen, any, numObjChanged - old(numObjChanged)));
      assert maps + [] == maps;
      DeleteStale(relids);
      return Some(any || relids != {}), maps;
    }
  }
}
