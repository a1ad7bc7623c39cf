/** Reconciling the objects of a device relationship with the object maps a modeler plugin sent. */
module RelationshipState {
  import opened Wrappers
  import opened PyStrings
  import opened ModelData

  datatype Lock = Unlocked | DeletionLocked | UpdatesLocked

  /** A related object: where its class comes from, its plain attributes, its modeler lock. */
  datatype Obj = Obj(modname: string, classname: string, attrs: map<string, Data>, lock: Lock)

  datatype ObjMap = ObjMap(id: string, modname: string, classname: string, data: map<string, Data>)

  /** The constructors, and the decoding of collected text, which may fail. */
  datatype World = World(make: (string, string) -> Obj, recode: string -> Option<string>)

  type Relation = map<string, Obj>

  // ----- _updateObject -----

  function Recoded(w: World, v: Data): Option<Data> {
    if !v.Text? then Some(v)
    else match w.recode(v.s)
      case None => None
      case Some(s) => Some(Text(s))
  }

  const MARKER := Text("__ZENMARKER__")

  /** The map's value for n is compared with the object's. */
  predicate Applies(w: World, o: Obj, data: map<string, Data>, n: string) {
    n in data && !StartsWith(n, "_") && Recoded(w, data[n]).Some? && n in o.attrs && o.attrs[n] != MARKER
  }

  function Compared(w: World, o: Obj, data: map<string, Data>, n: string): Result<bool>
    requires Applies(w, o, data, n)
  {
    IsSameData(o.attrs[n], Recoded(w, data[n]).value)
  }

  predicate Raises(w: World, o: Obj, data: map<string, Data>) {
    exists n | n in data :: Applies(w, o, data, n) && Compared(w, o, data, n).Err?
  }

  predicate Writes(w: World, o: Obj, data: map<string, Data>, n: string) {
    Applies(w, o, data, n) && Compared(w, o, data, n) == Ok(false)
  }

  function Written(w: World, o: Obj, data: map<string, Data>): Obj {
    o.(attrs := map n | n in o.attrs :: if Writes(w, o, data, n) then Recoded(w, data[n]).value else o.attrs[n])
  }

  datatype Updated = Updated(obj: Obj, changed: bool)

  /** None when a comparison raises. */
  function Update(w: World, o: Obj, data: map<string, Data>): Option<Updated> {
    if o.lock.UpdatesLocked? then Some(Updated(o, false))
    else if Raises(w, o, data) then None
    else Some(Updated(Written(w, o, data), exists n | n in data :: Writes(w, o, data, n)))
  }

  // ----- _createRelObject -----

  datatype Outcome = Outcome(rel: Relation, changed: bool)

  function Created(w: World, deviceLocked: bool, rel: Relation, id: string, om: ObjMap): Option<Outcome> {
    if deviceLocked then Some(Outcome(rel, false)) else
    match Update(w, if id in rel then rel[id] else w.make(om.modname, om.classname), om.data)
    case None => None
    case Some(u) => Some(Outcome(rel[id := u.obj], u.changed || id !in rel))
  }

  // ----- _updateRelationship -----

  /** relids: the ids no map was met for yet; seen: the ids of the maps met, before renaming. */
  datatype Progress = Progress(rel: Relation, relids: set<string>, seen: multiset<string>, changed: bool, count: nat)

  /** The id a map gets when maps with the ids in seen came before it. */
  function NewId(seen: multiset<string>, id: string): string {
    if seen[id] == 0 then id else id + "_" + Decimal(seen[id] + 1)
  }

  function NewIds(seen: multiset<string>, maps: seq<ObjMap>): (ids: seq<string>)
    ensures |ids| == |maps|
    decreases maps
  {
    if maps == [] then []
    else [NewId(seen, maps[0].id)] + NewIds(seen + multiset{maps[0].id}, maps[1..])
  }

  /** The maps as the loop leaves them, with the ids it assigned. */
  function Renamed(seen: multiset<string>, maps: seq<ObjMap>): seq<ObjMap>
    decreases maps
  {
    if maps == [] then []
    else [maps[0].(id := NewId(seen, maps[0].id))] + Renamed(seen + multiset{maps[0].id}, maps[1..])
  }

  predicate SameClass(o: Obj, om: ObjMap) {
    om.modname == o.modname && (om.classname == "" || om.classname == o.classname)
  }

  /** What one map does to the relationship. */
  function Effect(w: World, deviceLocked: bool, p: Progress, om: ObjMap): Option<Outcome>
    requires p.relids <= p.rel.Keys
  {
    var id := NewId(p.seen, om.id);
    if id in p.relids && SameClass(p.rel[id], om) then
      match Update(w, p.rel[id], om.data)
      case None => None
      case Some(u) => Some(Outcome(p.rel[id := u.obj], u.changed))
    else if id in p.relids then Created(w, deviceLocked, p.rel - {id}, id, om)
    else Created(w, deviceLocked, p.rel, id, om)
  }

  function Process(w: World, deviceLocked: bool, p: Progress, om: ObjMap): (r: Option<Progress>)
    requires p.relids <= p.rel.Keys
    ensures r.Some? ==> r.value.relids <= r.value.rel.Keys
  {
    match Effect(w, deviceLocked, p, om)
    case None => None
    case Some(e) =>
      Some(Progress(e.rel, p.relids - {NewId(p.seen, om.id)}, p.seen + multiset{om.id},
                    p.changed || e.changed, p.count + if e.changed then 1 else 0))
  }

  function ProcessAll(w: World, deviceLocked: bool, p: Progress, maps: seq<ObjMap>): (r: Option<Progress>)
    requires p.relids <= p.rel.Keys
    ensures r.Some? ==> r.value.relids <= r.value.rel.Keys
    decreases maps
  {
    if maps == [] then Some(p) else
    match Process(w, deviceLocked, p, maps[0])
    case None => None
    case Some(q) => ProcessAll(w, deviceLocked, q, maps[1..])
  }

  /** The objects no map was met for are deleted, save the locked ones; either way the result is a change. */
  function Stripped(rel: Relation, relids: set<string>): Relation {
    map id | id in rel && (id in relids ==> !rel[id].lock.Unlocked?) :: rel[id]
  }

  function Start(rel: Relation): Progress {
    Progress(rel, rel.Keys, multiset{}, false, 0)
  }

  function Reconciled(w: World, deviceLocked: bool, rel: Relation, maps: seq<ObjMap>): Option<Progress> {
    match ProcessAll(w, deviceLocked, Start(rel), maps)
    case None => None
    case Some(p) => Some(p.(rel := Stripped(p.rel, p.relids), changed := p.changed || p.relids != {}))
  }

  /** _applyDataMap: the transaction is aborted when nothing is reported as changed. */
  function Committed(rel: Relation, p: Progress): Relation {
    if p.changed then p.rel else rel
  }
}
