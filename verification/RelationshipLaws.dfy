/** What reconciling a relationship achieves: its ids, its objects, when it is idempotent. */
module RelationshipLaws {
  import opened Wrappers
  import opened PyStrings
  import opened ModelData
  import opened RelationshipState

  ghost predicate Distinct(ids: seq<string>) {
    forall i, j :: 0 <= i < j < |ids| ==> ids[i] != ids[j]
  }

  function Ids(maps: seq<ObjMap>): seq<string> {
    seq(|maps|, k requires 0 <= k < |maps| => maps[k].id)
  }

  function SetOf(ids: seq<string>): set<string> {
    set id | id in ids
  }

  lemma DistinctParts(ids: seq<string>)
    requires Distinct(ids) && ids != []
    ensures ids[0] !in ids[1..] && Distinct(ids[1..])
  {
  }

  // ----- the loop -----

  /**
   Through the loop the relationship holds the ids not yet met and those met, none twice, and an
   object is touched only by the maps that got its id; a locked device gains no id.
   */
  lemma {:induction false} LoopKeeps(w: World, deviceLocked: bool, p: Progress, maps: seq<ObjMap>)
    requires p.relids <= p.rel.Keys && ProcessAll(w, deviceLocked, p, maps).Some?
    ensures var q, ids := ProcessAll(w, deviceLocked, p, maps).value, NewIds(p.seen, maps);
            && q.relids == p.relids - SetOf(ids)
            && (!deviceLocked ==> q.rel.Keys == p.rel.Keys + SetOf(ids))
            && (deviceLocked ==> p.rel.Keys - SetOf(ids) <= q.rel.Keys <= p.rel.Keys)
            && (forall id :: id in p.rel && id !in ids ==> id in q.rel && q.rel[id] == p.rel[id])
            && (p.changed ==> q.changed)
            && (!q.changed && !deviceLocked ==> q.rel == p.rel)
    decreases maps
  {
    hide Effect, NewId;
    if maps != [] {
      var q := Process(w, deviceLocked, p, maps[0]).value;
      var id, ids := NewId(p.seen, maps[0].id), NewIds(q.seen, maps[1..]);
      assert NewIds(p.seen, maps) == [id] + ids;
      assert forall i :: i in NewIds(p.seen, maps) <==> i == id || i in ids;
      OneKeeps(w, deviceLocked, p, maps[0]);
      LoopKeeps(w, deviceLocked, q, maps[1..]);
    }
  }

  lemma UpdateUnchanged(w: World, o: Obj, data: map<string, Data>)
    requires Update(w, o, data).Some? && !Update(w, o, data).value.changed
    ensures Update(w, o, data).value.obj == o
  {
    if !o.lock.UpdatesLocked? {
      assert Written(w, o, data).attrs == o.attrs;
    }
  }

  lemma OneKeeps(w: World, deviceLocked: bool, p: Progress, om: ObjMap)
    requires p.relids <= p.rel.Keys && Process(w, deviceLocked, p, om).Some?
    ensures var q, id := Process(w, deviceLocked, p, om).value, NewId(p.seen, om.id);
            && (!deviceLocked ==> q.rel.Keys == p.rel.Keys + {id})
            && (deviceLocked ==> p.rel.Keys - {id} <= q.rel.Keys <= p.rel.Keys)
            && (forall i :: i in p.rel && i != id ==> i in q.rel && q.rel[i] == p.rel[i])
            && (!q.changed && !deviceLocked ==> q.rel == p.rel)
  {
    var id := NewId(p.seen, om.id);
    if id in p.rel {
      if Update(w, p.rel[id], om.data).Some? && !Update(w, p.rel[id], om.data).value.changed {
        UpdateUnchanged(w, p.rel[id], om.data);
      }
    }
  }

  /** The final ids: those of the maps after renaming, and the stale objects locked from deletion, untouched. */
  lemma FinalIds(w: World, rel: Relation, maps: seq<ObjMap>)
    requires Reconciled(w, false, rel, maps).Some?
    ensures var q, ids := Reconciled(w, false, rel, maps).value, NewIds(multiset{}, maps);
            && q.rel.Keys == SetOf(ids) + (set id | id in rel && id !in ids && !rel[id].lock.Unlocked?)
            && (forall id :: id in q.rel && id !in ids ==> q.rel[id] == rel[id])
  {
    hide ProcessAll, NewIds;
    LoopKeeps(w, false, Start(rel), maps);
  }

  /** Whatever the transaction's abort throws away, it is nothing on an unlocked device. */
  lemma AbortLosesNothing(w: World, rel: Relation, maps: seq<ObjMap>)
    requires Reconciled(w, false, rel, maps).Some?
    ensures var q := Reconciled(w, false, rel, maps).value; Committed(rel, q) == q.rel
  {
    LoopKeeps(w, false, Start(rel), maps);
    var p := ProcessAll(w, false, Start(rel), maps).value;
    if !p.changed && p.relids == {} { assert Stripped(p.rel, p.relids) == p.rel; }
  }

  // ----- doing it again -----

  /** Constructors give an unlocked instance of the class they are asked for. */
  ghost predicate Faithful(w: World) {
    forall om: ObjMap :: SameClass(w.make(om.modname, om.classname), om)
        && w.make(om.modname, om.classname).lock.Unlocked?
  }

  /** The map holds values the comparison can always handle. */
  predicate Plain(om: ObjMap) {
    forall n :: n in om.data ==> Comparable(om.data[n])
  }

  /** The object is as the map wants it. */
  predicate Settled(w: World, rel: Relation, id: string, om: ObjMap) {
    id in rel && SameClass(rel[id], om) && Update(w, rel[id], om.data) == Some(Updated(rel[id], false))
  }

  lemma RecodedIsComparable(w: World, v: Data)
    requires Comparable(v) && Recoded(w, v).Some?
    ensures Comparable(Recoded(w, v).value)
  {
  }

  /** What one update writes, the next finds in place. */
  lemma UpdateSettles(w: World, o: Obj, om: ObjMap)
    requires Plain(om) && Update(w, o, om.data).Some?
    ensures var u := Update(w, o, om.data).value.obj; Update(w, u, om.data) == Some(Updated(u, false))
  {
    var u := Update(w, o, om.data).value.obj;
    if !o.lock.UpdatesLocked? {
      forall n | n in om.data && Applies(w, u, om.data, n) ensures Compared(w, u, om.data, n) == Ok(true) {
        assert n in o.attrs
            && u.attrs[n] == if Writes(w, o, om.data, n) then Recoded(w, om.data[n]).value else o.attrs[n];
        if Writes(w, o, om.data, n) {
          RecodedIsComparable(w, om.data[n]);
          SameIsReflexive(u.attrs[n]);
        } else {
          assert Compared(w, o, om.data, n).Ok?;
        }
      }
      assert !Raises(w, u, om.data);
      assert Written(w, u, om.data).attrs == u.attrs;
    }
  }

  // ----- what an update writes -----

  /** The map says something about the object's attribute n: a public name, a value that can be decoded. */
  predicate Concerns(w: World, o: Obj, data: map<string, Data>, n: string) {
    && n in data && (n == "" || n[0] != '_') && (data[n].Text? ==> w.recode(data[n].s).Some?)
    && n in o.attrs && o.attrs[n] != Text("__ZENMARKER__")
  }

  /** What the map says: text is decoded and encoded again. */
  function Wanted(w: World, data: map<string, Data>, n: string): Data
    requires n in data && (data[n].Text? ==> w.recode(data[n].s).Some?)
  {
    if data[n].Text? then Text(w.recode(data[n].s).value) else data[n]
  }

  lemma ConcernsApply(w: World, o: Obj, data: map<string, Data>, n: string)
    ensures Concerns(w, o, data, n) <==> Applies(w, o, data, n)
    ensures Concerns(w, o, data, n) ==> Recoded(w, data[n]) == Some(Wanted(w, data, n))
  {
    if n != "" { assert n[..1] == [n[0]]; }
  }

  /**
   Updating an object that is not locked gives it the map's value for each attribute the map is about, unless it had
   one that is the same up to order; every other attribute, the class and the lock stay. A change is reported exactly
   when some attribute was not the same.
   */
  lemma UpdateWrites(w: World, o: Obj, data: map<string, Data>)
    requires !o.lock.UpdatesLocked? && Update(w, o, data).Some?
    ensures var u := Update(w, o, data).value;
            && u.obj == o.(attrs := u.obj.attrs) && u.obj.attrs.Keys == o.attrs.Keys
            && (forall n :: n in o.attrs ==>
                  if Concerns(w, o, data, n) && !SameUpToOrder(o.attrs[n], Wanted(w, data, n))
                  then u.obj.attrs[n] == Wanted(w, data, n) else u.obj.attrs[n] == o.attrs[n])
            && (u.changed <==>
                  exists n :: n in data && Concerns(w, o, data, n) && !SameUpToOrder(o.attrs[n], Wanted(w, data, n)))
  {
    forall n | n in data ensures Writes(w, o, data, n)
        <==> Concerns(w, o, data, n) && !SameUpToOrder(o.attrs[n], Wanted(w, data, n)) {
      ConcernsApply(w, o, data, n);
      if Concerns(w, o, data, n) { SameMeans(o.attrs[n], Wanted(w, data, n)); }
    }
  }

  /** So afterwards each attribute the map is about holds what the map says, up to order. */
  lemma UpdateEstablishes(w: World, o: Obj, data: map<string, Data>, n: string)
    requires !o.lock.UpdatesLocked? && Update(w, o, data).Some? && Concerns(w, o, data, n)
    ensures SameUpToOrder(Update(w, o, data).value.obj.attrs[n], Wanted(w, data, n))
  {
    UpdateWrites(w, o, data);
  }

  /** Two lists that start with dictionaries, one of which holds something else than rows. */
  predicate Incomparable(x: Data, y: Data) {
    StartsWithDict(x) && StartsWithDict(y) && !(AllRows(x.elems) && AllRows(y.elems))
  }

  /** The update raises exactly when, on an object that is not locked, some value cannot be compared. */
  lemma UpdateRaises(w: World, o: Obj, data: map<string, Data>)
    ensures Update(w, o, data).None?
            <==> !o.lock.UpdatesLocked?
                 && exists n :: n in data && Concerns(w, o, data, n) && Incomparable(o.attrs[n], Wanted(w, data, n))
  {
    hide IsSameData;
    forall n | n in data ensures Concerns(w, o, data, n) <==> Applies(w, o, data, n) {
      ConcernsApply(w, o, data, n);
    }
    forall n | n in data && Concerns(w, o, data, n)
      ensures Compared(w, o, data, n).Err? <==> Incomparable(o.attrs[n], Wanted(w, data, n))
    {
      ConcernsApply(w, o, data, n);
      SameRaises(o.attrs[n], Wanted(w, data, n));
    }
  }

  /** An object locked from updates stays as it is, and no change is reported. */
  lemma LockedStays(w: World, o: Obj, data: map<string, Data>)
    requires o.lock.UpdatesLocked?
    ensures Update(w, o, data) == Some(Updated(o, false))
  {
  }

  lemma OneSettles(w: World, p: Progress, om: ObjMap)
    requires Faithful(w) && Plain(om)
    requires p.relids <= p.rel.Keys && Process(w, false, p, om).Some?
    requires NewId(p.seen, om.id) in p.rel ==> NewId(p.seen, om.id) in p.relids
    ensures Settled(w, Process(w, false, p, om).value.rel, NewId(p.seen, om.id), om)
  {
    var id := NewId(p.seen, om.id);
    UpdateSettles(w, if id in p.relids
        && SameClass(p.rel[id], om) then p.rel[id] else w.make(om.modname, om.classname), om);
  }

  /** After the loop every map finds its object as it wants it, when no two maps end up with one id. */
  lemma {:induction false} LoopSettles(w: World, p: Progress, maps: seq<ObjMap>)
    requires Faithful(w) && forall k :: 0 <= k < |maps| ==> Plain(maps[k])
    requires p.relids <= p.rel.Keys && ProcessAll(w, false, p, maps).Some?
    requires Distinct(NewIds(p.seen, maps))
    requires forall id :: id in NewIds(p.seen, maps) && id in p.rel ==> id in p.relids
    ensures forall k :: 0 <= k < |maps|
               ==> Settled(w, ProcessAll(w, false, p, maps).value.rel, NewIds(p.seen, maps)[k], maps[k])
    decreases maps
  {
    if maps != [] {
      var q := Process(w, false, p, maps[0]).value;
      var id, ids := NewId(p.seen, maps[0].id), NewIds(q.seen, maps[1..]);
      assert NewIds(p.seen, maps) == [id] + ids;
      DistinctParts(NewIds(p.seen, maps));
      assert NewIds(p.seen, maps)[1..] == ids;
      OneKeeps(w, false, p, maps[0]);
      OneSettles(w, p, maps[0]);
      LoopSettles(w, q, maps[1..]);
      LoopKeeps(w, false, q, maps[1..]);
      forall k | 0 <= k < |maps|
        ensures Settled(w, ProcessAll(w, false, p, maps).value.rel, NewIds(p.seen, maps)[k], maps[k])
      {
        if k > 0 { assert maps[k] == maps[1..][k - 1] && NewIds(p.seen, maps)[k] == ids[k - 1]; }
      }
    }
  }

  /** What the other maps find is still settled after the first. */
  lemma SettledLater(w: World, p: Progress, q: Progress, ids: seq<string>, maps: seq<ObjMap>)
    requires maps != [] && |ids| == |maps| && Distinct(ids)
    requires q.rel == p.rel && q.relids == p.relids - {ids[0]}
    requires forall k :: 0 <= k < |maps| ==> SettledAt(w, p.rel, p.relids, ids[k], maps[k])
    ensures forall k :: 0 <= k < |maps[1..]| ==> SettledAt(w, q.rel, q.relids, ids[1..][k], maps[1..][k])
  {
    hide Settled;
    forall k | 0 <= k < |maps[1..]| ensures SettledAt(w, q.rel, q.relids, ids[1..][k], maps[1..][k]) {
      assert SettledAt(w, p.rel, p.relids, ids[k + 1], maps[k + 1]);
    }
  }

  /** Maps that find their objects settled change nothing. */
  lemma {:induction false} SettledLoop(w: World, deviceLocked: bool, p: Progress, maps: seq<ObjMap>)
    requires p.relids <= p.rel.Keys && Distinct(NewIds(p.seen, maps))
    requires forall k :: 0 <= k < |maps| ==> SettledAt(w, p.rel, p.relids, NewIds(p.seen, maps)[k], maps[k])
    ensures ProcessAll(w, deviceLocked, p, maps)
            == Some(p.(relids := p.relids - SetOf(NewIds(p.seen, maps)), seen := p.seen + multiset(Ids(maps))))
    decreases maps
  {
    if maps != [] {
      hide NewId, Effect, SettledAt, SetOf, Process;
      var ids := NewIds(p.seen, maps);
      SettledOne(w, deviceLocked, p, maps[0]);
      var q := Process(w, deviceLocked, p, maps[0]).value;
      var rest := NewIds(q.seen, maps[1..]);
      assert ids == [ids[0]] + rest && ids[1..] == rest;
      assert Ids(maps)[0] == maps[0].id && Ids(maps)[1..] == Ids(maps[1..]);
      DistinctParts(ids);
      SettledLater(w, p, q, ids, maps);
      SettledLoop(w, deviceLocked, q, maps[1..]);
      OneIdLess(p.relids, ids);
      OneIdMore(p.seen, Ids(maps));
    } else {
      assert p.relids - SetOf(NewIds(p.seen, maps)) == p.relids && p.seen + multiset(Ids(maps)) == p.seen;
    }
  }

  lemma OneIdLess(relids: set<string>, ids: seq<string>)
    requires ids != []
    ensures relids - SetOf(ids) == relids - {ids[0]} - SetOf(ids[1..])
  {
  }

  lemma OneIdMore(seen: multiset<string>, ids: seq<string>)
    requires ids != []
    ensures seen + multiset(ids) == seen + multiset{ids[0]} + multiset(ids[1..])
  {
    assert ids == [ids[0]] + ids[1..];
  }

  predicate SettledAt(w: World, rel: Relation, relids: set<string>, id: string, om: ObjMap) {
    id in relids && Settled(w, rel, id, om)
  }

  lemma SettledOne(w: World, deviceLocked: bool, p: Progress, om: ObjMap)
    requires p.relids <= p.rel.Keys && SettledAt(w, p.rel, p.relids, NewId(p.seen, om.id), om)
    ensures Process(w, deviceLocked, p, om)
            == Some(p.(relids := p.relids - {NewId(p.seen, om.id)}, seen := p.seen + multiset{om.id}))
  {
    var id := NewId(p.seen, om.id);
    assert p.rel[id := p.rel[id]] == p.rel;
  }

  lemma {:induction false} RenamedAre(seen: multiset<string>, maps: seq<ObjMap>)
    ensures |Renamed(seen, maps)| == |maps| && Ids(Renamed(seen, maps)) == NewIds(seen, maps)
    ensures forall k :: 0 <= k < |maps| ==> Renamed(seen, maps)[k] == maps[k].(id := NewIds(seen, maps)[k])
    decreases maps
  {
    hide NewId;
    if maps != [] {
      var next := seen + multiset{maps[0].id};
      RenamedAre(next, maps[1..]);
      var rest, ids := Renamed(next, maps[1..]), NewIds(next, maps[1..]);
      forall k | 0 <= k < |maps|
        ensures Renamed(seen, maps)[k] == maps[k].(id := NewIds(seen, maps)[k])
      {
        if k > 0 { assert rest[k - 1] == maps[1..][k - 1].(id := ids[k - 1]); }
      }
    }
  }

  /** A map that no longer has an object of the plugin's naming: locked from deletion, and in no map. */
  ghost predicate StaleLocked(rel: Relation, maps: seq<ObjMap>, id: string) {
    id in rel && id !in NewIds(multiset{}, maps) && !rel[id].lock.Unlocked?
  }

  /**
   What a second application of maps comes to: no object changed or counted, a change reported for stale
   locked ones.
   */
  ghost predicate ChangesNothing(w: World, rel: Relation, maps: seq<ObjMap>, second: seq<ObjMap>)
    requires Reconciled(w, false, rel, maps).Some?
  {
    var first := Reconciled(w, false, rel, maps).value.rel;
    && Reconciled(w, false, first, second).Some?
    && Reconciled(w, false, first, second).value.rel == first
    && Reconciled(w, false, first, second).value.count == 0
    && (Reconciled(w, false, first, second).value.changed <==> exists id :: StaleLocked(rel, maps, id))
  }

  /**
   Applying the relationship map again, as the loop left it or as the plugin sent it, changes no object; and it reports
   a change exactly when the relationship holds a stale object locked from deletion.
   */
  lemma ReconcilingIsIdempotent(w: World, rel: Relation, maps: seq<ObjMap>)
    requires Faithful(w) && forall k :: 0 <= k < |maps| ==> Plain(maps[k])
    requires Reconciled(w, false, rel, maps).Some? && Distinct(NewIds(multiset{}, maps))
    ensures ChangesNothing(w, rel, maps, Renamed(multiset{}, maps)) && ChangesNothing(w, rel, maps, maps)
  {
    var ids, again := NewIds(multiset{}, maps), Renamed(multiset{}, maps);
    var first := Reconciled(w, false, rel, maps).value.rel;
    AllSettled(w, rel, maps);
    RenamedAre(multiset{}, maps);
    DistinctStay(multiset{}, again);
    SettledChangesNothing(w, rel, maps, maps);
    forall k | 0 <= k < |again| ensures Settled(w, first, ids[k], again[k]) {
      assert Settled(w, first, ids[k], maps[k]);
    }
    SettledChangesNothing(w, rel, maps, again);
  }

  lemma SettledChangesNothing(w: World, rel: Relation, maps: seq<ObjMap>, second: seq<ObjMap>)
    requires Reconciled(w, false, rel, maps).Some? && Distinct(NewIds(multiset{}, maps))
    requires NewIds(multiset{}, second) == NewIds(multiset{}, maps)
    requires AllSettledIn(w, Reconciled(w, false, rel, maps).value.rel, NewIds(multiset{}, maps), second)
    ensures ChangesNothing(w, rel, maps, second)
  {
    var first, ids := Reconciled(w, false, rel, maps).value.rel, NewIds(multiset{}, maps);
    hide Reconciled, NewIds, AllSettledIn, Settled;
    StaleAreLeft(w, rel, maps);
    SettledReconciles(w, first, ids, second);
    var left := first.Keys - SetOf(ids);
    assert left != {} <==> exists id :: id in left;
  }

  /** Distinct ids that were not met before are kept. */
  lemma {:induction false} DistinctStay(seen: multiset<string>, maps: seq<ObjMap>)
    requires Distinct(Ids(maps)) && forall k :: 0 <= k < |maps| ==> seen[maps[k].id] == 0
    ensures NewIds(seen, maps) == Ids(maps)
    decreases maps
  {
    if maps != [] {
      assert Ids(maps) == [maps[0].id] + Ids(maps[1..]);
      DistinctParts(Ids(maps));
      assert Ids(maps)[1..] == Ids(maps[1..]);
      forall k | 0 <= k < |maps[1..]| ensures (seen + multiset{maps[0].id})[maps[1..][k].id] == 0 {
        assert maps[1..][k] == maps[k + 1] && Ids(maps)[k + 1] != Ids(maps)[0];
      }
      DistinctStay(seen + multiset{maps[0].id}, maps[1..]);
    }
  }

  /** Every map finds its object as it wants it. */
  ghost predicate AllSettledIn(w: World, rel: Relation, ids: seq<string>, maps: seq<ObjMap>)
    requires |ids| == |maps|
  {
    forall k :: 0 <= k < |maps| ==> Settled(w, rel, ids[k], maps[k])
  }

  lemma SettledFromStart(w: World, rel: Relation, ids: seq<string>, maps: seq<ObjMap>)
    requires ids == NewIds(multiset{}, maps) && Distinct(ids) && AllSettledIn(w, rel, ids, maps)
    ensures ProcessAll(w, false, Start(rel), maps)
            == Some(Progress(rel, rel.Keys - SetOf(ids), multiset(Ids(maps)), false, 0))
  {
    hide NewIds, ProcessAll;
    forall k | 0 <= k < |maps| ensures SettledAt(w, rel, rel.Keys, ids[k], maps[k]) {
      assert Settled(w, rel, ids[k], maps[k]);
    }
    SettledLoop(w, false, Start(rel), maps);
    assert multiset{} + multiset(Ids(maps)) == multiset(Ids(maps));
  }

  lemma SettledReconciles(w: World, rel: Relation, ids: seq<string>, maps: seq<ObjMap>)
    requires ids == NewIds(multiset{}, maps) && Distinct(ids) && AllSettledIn(w, rel, ids, maps)
    requires forall id :: id in rel.Keys - SetOf(ids) ==> !rel[id].lock.Unlocked?
    ensures var left := rel.Keys - SetOf(ids);
            Reconciled(w, false, rel, maps) == Some(Progress(rel, left, multiset(Ids(maps)), left != {}, 0))
  {
    SettledFromStart(w, rel, ids, maps);
    hide NewIds, ProcessAll, AllSettledIn, SetOf;
    assert Stripped(rel, rel.Keys - SetOf(ids)) == rel;
  }

  /** When the first application ends, the maps under their new ids find everything settled. */
  lemma AllSettled(w: World, rel: Relation, maps: seq<ObjMap>)
    requires Faithful(w) && forall k :: 0 <= k < |maps| ==> Plain(maps[k])
    requires Reconciled(w, false, rel, maps).Some? && Distinct(NewIds(multiset{}, maps))
    ensures var first, ids := Reconciled(w, false, rel, maps).value.rel, NewIds(multiset{}, maps);
            AllSettledIn(w, first, ids, maps)
  {
    hide NewIds, ProcessAll, SameClass, Update, Plain;
    var ids := NewIds(multiset{}, maps);
    var loop := ProcessAll(w, false, Start(rel), maps).value;
    var first := Reconciled(w, false, rel, maps).value.rel;
    LoopKeeps(w, false, Start(rel), maps);
    LoopSettles(w, Start(rel), maps);
    forall k | 0 <= k < |maps| ensures Settled(w, first, ids[k], maps[k]) {
      assert Settled(w, loop.rel, ids[k], maps[k]) && ids[k] in ids;
    }
  }

  lemma StaleAreLeft(w: World, rel: Relation, maps: seq<ObjMap>)
    requires Reconciled(w, false, rel, maps).Some?
    ensures var first := Reconciled(w, false, rel, maps).value.rel;
            forall id :: id in first.Keys - SetOf(NewIds(multiset{}, maps))
                         <==> StaleLocked(rel, maps, id)
    ensures var first := Reconciled(w, false, rel, maps).value.rel;
            forall id :: StaleLocked(rel, maps, id) ==> !first[id].lock.Unlocked?
  {
    LoopKeeps(w, false, Start(rel), maps);
  }

  // ----- what every object becomes -----

  function Lookup(rel: Relation, id: string): Option<Obj> {
    if id in rel then Some(rel[id]) else None
  }

  /** What a map makes of the object of its id: the updated object, a new one, or none on a locked device. */
  function Made(w: World, deviceLocked: bool, rel: Relation, id: string, om: ObjMap): Option<Obj> {
    var kept := id in rel && om.modname == rel[id].modname
      && (om.classname == "" || om.classname == rel[id].classname);
    if deviceLocked && !kept then None else
    match Update(w, if kept then rel[id] else w.make(om.modname, om.classname), om.data)
    case None => None
    case Some(u) => Some(u.obj)
  }

  lemma OneMakes(w: World, deviceLocked: bool, p: Progress, om: ObjMap)
    requires p.relids <= p.rel.Keys && Process(w, deviceLocked, p, om).Some?
    requires NewId(p.seen, om.id) in p.rel ==> NewId(p.seen, om.id) in p.relids
    ensures var id := NewId(p.seen, om.id);
            Lookup(Process(w, deviceLocked, p, om).value.rel, id) == Made(w, deviceLocked, p.rel, id, om)
  {
  }

  lemma MadeDependsOnOwnId(w: World, deviceLocked: bool, r: Relation, s: Relation, id: string, om: ObjMap)
    requires Lookup(r, id) == Lookup(s, id)
    ensures Made(w, deviceLocked, r, id, om) == Made(w, deviceLocked, s, id, om)
  {
  }

  lemma {:induction false} LoopMakes(w: World, deviceLocked: bool, p: Progress, maps: seq<ObjMap>)
    requires p.relids <= p.rel.Keys && ProcessAll(w, deviceLocked, p, maps).Some?
    requires Distinct(NewIds(p.seen, maps))
    requires forall id :: id in NewIds(p.seen, maps) && id in p.rel ==> id in p.relids
    ensures var q, ids := ProcessAll(w, deviceLocked, p, maps).value, NewIds(p.seen, maps);
            forall k :: 0 <= k < |maps| ==> Lookup(q.rel, ids[k]) == Made(w, deviceLocked, p.rel, ids[k], maps[k])
    decreases maps
  {
    hide Effect, NewId, Made;
    if maps != [] {
      var q := Process(w, deviceLocked, p, maps[0]).value;
      var id, ids := NewId(p.seen, maps[0].id), NewIds(q.seen, maps[1..]);
      assert NewIds(p.seen, maps) == [id] + ids;
      DistinctParts(NewIds(p.seen, maps));
      assert NewIds(p.seen, maps)[1..] == ids;
      OneKeeps(w, deviceLocked, p, maps[0]);
      OneMakes(w, deviceLocked, p, maps[0]);
      LoopMakes(w, deviceLocked, q, maps[1..]);
      LoopKeeps(w, deviceLocked, q, maps[1..]);
      var end := ProcessAll(w, deviceLocked, p, maps).value;
      forall k | 0 <= k < |maps|
        ensures Lookup(end.rel, NewIds(p.seen, maps)[k])
                == Made(w, deviceLocked, p.rel, NewIds(p.seen, maps)[k], maps[k])
      {
        if k > 0 {
          assert maps[k] == maps[1..][k - 1] && NewIds(p.seen, maps)[k] == ids[k - 1] && ids[k - 1] in ids;
          MadeDependsOnOwnId(w, deviceLocked, p.rel, q.rel, ids[k - 1], maps[k]);
        }
      }
    }
  }

  /**
   When no two maps end up with one id, the final relationship is known object by object: each map's
   object as the map makes it, the stale locked objects as they were, and nothing else.
   */
  lemma EveryObject(w: World, deviceLocked: bool, rel: Relation, maps: seq<ObjMap>)
    requires Reconciled(w, deviceLocked, rel, maps).Some? && Distinct(NewIds(multiset{}, maps))
    ensures var end, ids := Reconciled(w, deviceLocked, rel, maps).value.rel, NewIds(multiset{}, maps);
            && (forall k :: 0 <= k < |maps| ==> Lookup(end, ids[k]) == Made(w, deviceLocked, rel, ids[k], maps[k]))
            && (forall id :: id !in ids
                   ==> Lookup(end, id) == if id in rel && !rel[id].lock.Unlocked? then Some(rel[id]) else None)
  {
    hide ProcessAll, Made, NewIds;
    LoopKeeps(w, deviceLocked, Start(rel), maps);
    LoopMakes(w, deviceLocked, Start(rel), maps);
    var ids := NewIds(multiset{}, maps);
    forall k | 0 <= k < |maps|
      ensures Lookup(Reconciled(w, deviceLocked, rel, maps).value.rel, ids[k])
              == Made(w, deviceLocked, rel, ids[k], maps[k])
    {
      assert ids[k] in ids;
    }
  }

  /** On a device locked from updates an object with a map is lost exactly when its class changed. */
  lemma LockedDeviceLoses(w: World, rel: Relation, maps: seq<ObjMap>, k: nat)
    requires Reconciled(w, true, rel, maps).Some? && Distinct(NewIds(multiset{}, maps)) && k < |maps|
    requires NewIds(multiset{}, maps)[k] in rel
    ensures var id := NewIds(multiset{}, maps)[k];
            id !in Reconciled(w, true, rel, maps).value.rel <==> !SameClass(rel[id], maps[k])
  {
    var id, p := NewIds(multiset{}, maps)[k], Reconciled(w, true, rel, maps).value;
    EveryObject(w, true, rel, maps);
    MadeByKept(w, rel, maps, k);
  }

  lemma {:induction false} UpdatesSucceed(w: World, p: Progress, maps: seq<ObjMap>, k: nat)
    requires p.relids <= p.rel.Keys && ProcessAll(w, true, p, maps).Some? && k < |maps|
    requires Distinct(NewIds(p.seen, maps)) && NewIds(p.seen, maps)[k] in p.relids
    ensures var id := NewIds(p.seen, maps)[k];
            SameClass(p.rel[id], maps[k]) ==> Update(w, p.rel[id], maps[k].data).Some?
    decreases maps
  {
    if k > 0 {
      var q := Process(w, true, p, maps[0]).value;
      OneKeeps(w, true, p, maps[0]);
      DistinctParts(NewIds(p.seen, maps));
      assert NewIds(p.seen, maps)[1..] == NewIds(q.seen, maps[1..]);
      UpdatesSucceed(w, q, maps[1..], k - 1);
    }
  }

  lemma MadeByKept(w: World, rel: Relation, maps: seq<ObjMap>, k: nat)
    requires Reconciled(w, true, rel, maps).Some? && Distinct(NewIds(multiset{}, maps)) && k < |maps|
    requires NewIds(multiset{}, maps)[k] in rel
    ensures var id := NewIds(multiset{}, maps)[k];
            Made(w, true, rel, id, maps[k]).Some? <==> SameClass(rel[id], maps[k])
  {
    hide ProcessAll, Update, NewIds;
    UpdatesSucceed(w, Start(rel), maps, k);
  }

  // ----- the abort on a locked device -----

  /** Map k is the first for the object of its new id, which is there. */
  predicate Meets(relids: set<string>, ids: seq<string>, k: nat)
    requires k < |ids|
  {
    ids[k] in relids && ids[k] !in ids[..k]
  }

  /** Map k meets an object of its class, and updating that changes it. */
  predicate Changes(w: World, p: Progress, ids: seq<string>, maps: seq<ObjMap>, k: nat)
    requires p.relids <= p.rel.Keys && |ids| == |maps| && k < |maps|
  {
    && Meets(p.relids, ids, k) && SameClass(p.rel[ids[k]], maps[k])
    && Update(w, p.rel[ids[k]], maps[k].data).Some? && Update(w, p.rel[ids[k]], maps[k].data).value.changed
  }

  /** Map k meets an object of another class. */
  predicate Reclasses(p: Progress, ids: seq<string>, maps: seq<ObjMap>, k: nat)
    requires p.relids <= p.rel.Keys && |ids| == |maps| && k < |maps|
  {
    Meets(p.relids, ids, k) && !SameClass(p.rel[ids[k]], maps[k])
  }

  ghost predicate SomeChanges(w: World, p: Progress, ids: seq<string>, maps: seq<ObjMap>)
    requires p.relids <= p.rel.Keys && |ids| == |maps|
  {
    exists k :: 0 <= k < |maps| && Changes(w, p, ids, maps, k)
  }

  ghost predicate SomeReclasses(p: Progress, ids: seq<string>, maps: seq<ObjMap>)
    requires p.relids <= p.rel.Keys && |ids| == |maps|
  {
    exists k :: 0 <= k < |maps| && Reclasses(p, ids, maps, k)
  }

  /** One map on a locked device. */
  lemma OneLocked(w: World, p: Progress, om: ObjMap)
    requires p.relids <= p.rel.Keys && Process(w, true, p, om).Some?
    ensures var q, id := Process(w, true, p, om).value, NewId(p.seen, om.id);
            && (q.changed <==> p.changed || Changes(w, p, [id], [om], 0))
            && (q.rel.Keys == p.rel.Keys <==> !Reclasses(p, [id], [om], 0))
            && (!Changes(w, p, [id], [om], 0) && !Reclasses(p, [id], [om], 0) ==> q.rel == p.rel)
  {
    var id := NewId(p.seen, om.id);
    if id in p.relids && SameClass(p.rel[id], om) && !Update(w, p.rel[id], om.data).value.changed {
      UpdateUnchanged(w, p.rel[id], om.data);
    }
  }

  /** What the other maps meet after the first is what they would have met before. */
  lemma MeetsLater(w: World, p: Progress, maps: seq<ObjMap>, k: nat)
    requires p.relids <= p.rel.Keys && maps != [] && Process(w, true, p, maps[0]).Some? && 0 < k < |maps|
    ensures var q, ids := Process(w, true, p, maps[0]).value, NewIds(p.seen, maps);
            && NewIds(q.seen, maps[1..]) == ids[1..] && maps[1..][k - 1] == maps[k]
            && (Changes(w, p, ids, maps, k) <==> Changes(w, q, ids[1..], maps[1..], k - 1))
            && (Reclasses(p, ids, maps, k) <==> Reclasses(q, ids[1..], maps[1..], k - 1))
  {
    hide Effect, NewId, Update, SameClass;
    var q, ids := Process(w, true, p, maps[0]).value, NewIds(p.seen, maps);
    OneKeeps(w, true, p, maps[0]);
    assert ids == [ids[0]] + NewIds(q.seen, maps[1..]);
    assert ids[1..][k - 1] == ids[k] && ids[..k] == [ids[0]] + ids[1..][..k - 1];
  }

  /** The loop on a locked device: when it reports a change, and when it loses an object. */
  lemma {:induction false} LockedLoop(w: World, p: Progress, maps: seq<ObjMap>)
    requires p.relids <= p.rel.Keys && ProcessAll(w, true, p, maps).Some?
    ensures var q, ids := ProcessAll(w, true, p, maps).value, NewIds(p.seen, maps);
            && (q.changed <==> p.changed || SomeChanges(w, p, ids, maps))
            && (q.rel.Keys == p.rel.Keys <==> !SomeReclasses(p, ids, maps))
            && (!SomeChanges(w, p, ids, maps) && !SomeReclasses(p, ids, maps) ==> q.rel == p.rel)
    decreases maps
  {
    if maps != [] {
      var ids, q := NewIds(p.seen, maps), Process(w, true, p, maps[0]).value;
      OneLocked(w, p, maps[0]);
      FirstMeets(w, p, maps);
      OneKeeps(w, true, p, maps[0]);
      LoopKeeps(w, true, q, maps[1..]);
      LockedLoop(w, q, maps[1..]);
      SomeSplit(w, p, q, maps);
    }
  }

  lemma FirstMeets(w: World, p: Progress, maps: seq<ObjMap>)
    requires p.relids <= p.rel.Keys && maps != []
    ensures var ids, id := NewIds(p.seen, maps), NewId(p.seen, maps[0].id);
            && (Changes(w, p, ids, maps, 0) <==> Changes(w, p, [id], [maps[0]], 0))
            && (Reclasses(p, ids, maps, 0) <==> Reclasses(p, [id], [maps[0]], 0))
  {
    hide Update, SameClass, NewId;
  }

  lemma SomeSplit(w: World, p: Progress, q: Progress, maps: seq<ObjMap>)
    requires p.relids <= p.rel.Keys && maps != [] && Process(w, true, p, maps[0]) == Some(q)
    ensures var ids := NewIds(p.seen, maps);
            && q.relids <= q.rel.Keys && NewIds(q.seen, maps[1..]) == ids[1..]
            && (SomeChanges(w, p, ids, maps) <==> Changes(w, p, ids, maps, 0) || SomeChanges(w, q, ids[1..], maps[1..]))
            && (SomeReclasses(p, ids, maps) <==> Reclasses(p, ids, maps, 0) || SomeReclasses(q, ids[1..], maps[1..]))
  {
    hide Changes, Reclasses, Effect, NewId;
    var ids := NewIds(p.seen, maps);
    assert ids[1..] == NewIds(q.seen, maps[1..]);
    forall k | 0 < k < |maps|
      ensures Changes(w, p, ids, maps, k) <==> Changes(w, q, ids[1..], maps[1..], k - 1)
      ensures Reclasses(p, ids, maps, k) <==> Reclasses(q, ids[1..], maps[1..], k - 1)
    {
      MeetsLater(w, p, maps, k);
    }
    if SomeChanges(w, q, ids[1..], maps[1..]) {
      var j :| 0 <= j < |maps[1..]| && Changes(w, q, ids[1..], maps[1..], j);
      assert Changes(w, p, ids, maps, j + 1);
    }
    if SomeReclasses(q, ids[1..], maps[1..]) {
      var j :| 0 <= j < |maps[1..]| && Reclasses(q, ids[1..], maps[1..], j);
      assert Reclasses(p, ids, maps, j + 1);
    }
  }

  ghost predicate SomeStale(rel: Relation, maps: seq<ObjMap>) {
    exists id :: id in rel && id !in NewIds(multiset{}, maps)
  }

  /**
   On a locked device a change is reported exactly when a map changes an object of its class or an object has
   no map.
   */
  lemma LockedDeviceReports(w: World, rel: Relation, maps: seq<ObjMap>)
    requires Reconciled(w, true, rel, maps).Some?
    ensures Reconciled(w, true, rel, maps).value.changed
            <==> SomeChanges(w, Start(rel), NewIds(multiset{}, maps), maps) || SomeStale(rel, maps)
  {
    hide ProcessAll, SomeChanges, NewIds;
    LockedLoop(w, Start(rel), maps);
    LoopKeeps(w, true, Start(rel), maps);
    var left := rel.Keys - SetOf(NewIds(multiset{}, maps));
    assert forall id :: id in left <==> id in rel && id !in NewIds(multiset{}, maps);
    if left != {} {
      var id :| id in left;
      assert SomeStale(rel, maps);
    }
  }

  /**
   On a locked device the abort that follows when no change is reported restores an object exactly when the class of
   some object changed while no map changes an object of its class and every object has a map. Otherwise what the loop
   did, the losses included, is what is committed.
   */
  lemma AbortOnLockedDevice(w: World, rel: Relation, maps: seq<ObjMap>)
    requires Reconciled(w, true, rel, maps).Some?
    ensures var p, ids := Reconciled(w, true, rel, maps).value, NewIds(multiset{}, maps);
            Committed(rel, p) == p.rel
            <==> SomeChanges(w, Start(rel), ids, maps) || SomeStale(rel, maps) || !SomeReclasses(Start(rel), ids, maps)
  {
    hide Update, SomeChanges, SomeReclasses;
    LockedDeviceReports(w, rel, maps);
    LockedLoop(w, Start(rel), maps);
    LoopKeeps(w, true, Start(rel), maps);
    var q := ProcessAll(w, true, Start(rel), maps).value;
    if !SomeStale(rel, maps) {
      assert q.relids == {};
      assert Stripped(q.rel, q.relids) == q.rel;
    }
  }

  // ----- the number of changed objects -----

  /** Map k, the only one for its id, makes, recreates or changes its object. */
  predicate Counts(w: World, rel: Relation, id: string, om: ObjMap) {
    || id !in rel
    || !(om.modname == rel[id].modname && (om.classname == "" || om.classname == rel[id].classname))
    || (Update(w, rel[id], om.data).Some? && Update(w, rel[id], om.data).value.changed)
  }

  function Counted(w: World, rel: Relation, ids: seq<string>, maps: seq<ObjMap>): nat
    requires |ids| == |maps|
  {
    if maps == [] then 0
    else (if Counts(w, rel, ids[0], maps[0]) then 1 else 0) + Counted(w, rel, ids[1..], maps[1..])
  }

  lemma {:induction false} CountedOnOwnIds(w: World, rel: Relation, rel': Relation, ids: seq<string>, maps: seq<ObjMap>)
    requires |ids| == |maps| && forall id :: id in ids ==> Lookup(rel, id) == Lookup(rel', id)
    ensures Counted(w, rel, ids, maps) == Counted(w, rel', ids, maps)
  {
    if maps != [] {
      assert Lookup(rel, ids[0]) == Lookup(rel', ids[0]);
      CountedOnOwnIds(w, rel, rel', ids[1..], maps[1..]);
    }
  }

  lemma OneCounts(w: World, p: Progress, om: ObjMap)
    requires p.relids <= p.rel.Keys && Process(w, false, p, om).Some?
    requires NewId(p.seen, om.id) in p.rel ==> NewId(p.seen, om.id) in p.relids
    ensures var q, counts := Process(w, false, p, om).value, Counts(w, p.rel, NewId(p.seen, om.id), om);
            q.count == p.count + (if counts then 1 else 0) && (q.changed <==> p.changed || counts)
  {
  }

  lemma {:induction false} LoopCounts(w: World, p: Progress, maps: seq<ObjMap>)
    requires p.relids <= p.rel.Keys && ProcessAll(w, false, p, maps).Some? && Distinct(NewIds(p.seen, maps))
    requires forall id :: id in NewIds(p.seen, maps) && id in p.rel ==> id in p.relids
    ensures var q, n := ProcessAll(w, false, p, maps).value, Counted(w, p.rel, NewIds(p.seen, maps), maps);
            q.count == p.count + n && (q.changed <==> p.changed || n > 0)
    decreases maps
  {
    if maps != [] {
      hide Counts, Effect, NewId;
      var q := Process(w, false, p, maps[0]).value;
      var ids, rest := NewIds(p.seen, maps), NewIds(q.seen, maps[1..]);
      assert ids == [ids[0]] + rest && ids[1..] == rest;
      DistinctParts(ids);
      OneKeeps(w, false, p, maps[0]);
      OneCounts(w, p, maps[0]);
      LoopCounts(w, q, maps[1..]);
      CountedOnOwnIds(w, p.rel, q.rel, rest, maps[1..]);
    }
  }

  /**
   On an unlocked device the objects counted as changed are those a map makes, recreates or changes, and a change is
   reported exactly when there is one of them or an object without a map.
   */
  lemma UnlockedDeviceReports(w: World, rel: Relation, maps: seq<ObjMap>)
    requires Reconciled(w, false, rel, maps).Some? && Distinct(NewIds(multiset{}, maps))
    ensures var p, ids := Reconciled(w, false, rel, maps).value, NewIds(multiset{}, maps);
            && p.count == Counted(w, rel, ids, maps)
            && (p.changed <==> p.count > 0 || SomeStale(rel, maps))
  {
    hide ProcessAll, Counted, NewIds;
    LoopCounts(w, Start(rel), maps);
    LoopKeeps(w, false, Start(rel), maps);
    var left := rel.Keys - SetOf(NewIds(multiset{}, maps));
    assert forall id :: id in left <==> id in rel && id !in NewIds(multiset{}, maps);
    if left != {} {
      var id :| id in left;
      assert SomeStale(rel, maps);
    }
  }
}
