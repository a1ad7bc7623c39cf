/** The plain data a modelled attribute holds, and the comparison that decides whether it changed. */
module ModelData {
  import opened Wrappers

  datatype Data =
    | Text(s: string)
    | Number(n: int)
    | Dict(items: map<string, Data>)
    | Many(tuple: bool, elems: seq<Data>)

  predicate Hashable(d: Data) {
    match d
    case Text(_) => true
    case Number(_) => true
    case Dict(_) => false
    case Many(tuple, elems) => tuple && forall k :: 0 <= k < |elems| ==> Hashable(elems[k])
  }

  /** The value and all that is in it. */
  function Parts(d: Data): seq<Data>
    decreases d, 0
  {
    [d] + if d.Many? then AllParts(d.elems) else []
  }

  function AllParts(ds: seq<Data>): seq<Data>
    decreases ds, 1
  {
    if ds == [] then [] else Parts(ds[0]) + AllParts(ds[1..])
  }

  /** A value can be hashed exactly when no list and no dictionary is in it. */
  lemma {:induction false} HashableMeans(d: Data)
    ensures Hashable(d) <==> forall p :: p in Parts(d) ==> !p.Dict? && (p.Many? ==> p.tuple)
    decreases d, 0
  {
    assert d in Parts(d);
    if d.Many? { AllHashableMeans(d.elems); }
  }

  lemma {:induction false} AllHashableMeans(ds: seq<Data>)
    ensures (forall k :: 0 <= k < |ds| ==> Hashable(ds[k]))
            <==> forall p :: p in AllParts(ds) ==> !p.Dict? && (p.Many? ==> p.tuple)
    decreases ds, 1
  {
    if ds != [] {
      HashableMeans(ds[0]);
      AllHashableMeans(ds[1..]);
      assert (forall k :: 0 <= k < |ds| ==> Hashable(ds[k]))
             <==> Hashable(ds[0]) && forall k :: 0 <= k < |ds[1..]| ==> Hashable(ds[1..][k]) by {
        assert forall k :: 0 < k < |ds| ==> ds[k] == ds[1..][k - 1];
      }
    }
  }

  predicate IsRow(d: Data) {
    d.Dict? && forall n :: n in d.items ==> Hashable(d.items[n])
  }

  predicate AllRows(ds: seq<Data>) {
    forall k :: 0 <= k < |ds| ==> IsRow(ds[k])
  }

  /** set(tuple(sorted(d.items())) for d in ds): what is no dictionary has no items, and a list has no hash. */
  function Rows(ds: seq<Data>): Result<set<Data>> {
    if ds == [] then Ok({})
    else if !ds[0].Dict? then Err(AttributeError)
    else if !IsRow(ds[0]) then Err(TypeError)
    else match Rows(ds[1..])
      case Ok(rows) => Ok({ds[0]} + rows)
      case Err(e) => Err(e)
  }

  predicate StartsWithDict(d: Data) {
    d.Many? && d.elems != [] && d.elems[0].Dict?
  }

  /** isSameData. Comparing two sorted lists is comparing what they hold, how often. */
  function IsSameData(x: Data, y: Data): Result<bool> {
    if x.Many? && y.Many? then
      if StartsWithDict(x) && StartsWithDict(y) then
        match Rows(x.elems)
        case Err(e) => Err(e)
        case Ok(xs) =>
          match Rows(y.elems)
          case Err(e) => Err(e)
          case Ok(ys) => Ok(xs == ys)
      else Ok(multiset(x.elems) == multiset(y.elems))
    else Ok(x == y)
  }

  /** A value the comparison can always handle: a list that starts with a dictionary holds only rows. */
  predicate Comparable(d: Data) {
    StartsWithDict(d) ==> AllRows(d.elems)
  }

  lemma {:induction false} RowsAre(ds: seq<Data>)
    ensures Rows(ds).Ok? <==> AllRows(ds)
    ensures AllRows(ds) ==> Rows(ds).value == set d | d in ds
  {
    if ds != [] {
      RowsAre(ds[1..]);
      assert forall k :: 0 < k < |ds| ==> ds[k] == ds[1..][k - 1];
      assert forall d :: d in ds <==> d == ds[0] || d in ds[1..];
    }
  }

  /** A value is the same as itself exactly when it is comparable; otherwise the comparison raises. */
  lemma SameIsReflexive(x: Data)
    ensures IsSameData(x, x) == Ok(true) <==> Comparable(x)
    ensures IsSameData(x, x).Err? <==> !Comparable(x)
  {
    if StartsWithDict(x) { RowsAre(x.elems); }
  }

  /** The comparison raises exactly when two lists start with dictionaries and one holds something else. */
  lemma SameRaises(x: Data, y: Data)
    ensures IsSameData(x, y).Err? <==> StartsWithDict(x) && StartsWithDict(y) && !(Comparable(x) && Comparable(y))
  {
    if StartsWithDict(x) && StartsWithDict(y) { RowsAre(x.elems); RowsAre(y.elems); }
  }

  /** Comparable values that are the same hold the same elements. */
  lemma SameElements(x: Data, y: Data)
    requires Comparable(x) && Comparable(y) && IsSameData(x, y) == Ok(true) && x.Many?
    ensures y.Many? && (StartsWithDict(x) <==> StartsWithDict(y))
    ensures forall d :: d in x.elems <==> d in y.elems
  {
    if StartsWithDict(x) && StartsWithDict(y) {
      RowsAre(x.elems);
      RowsAre(y.elems);
      assert forall d :: d in x.elems <==> d in Rows(x.elems).value;
      assert forall d :: d in y.elems <==> d in Rows(y.elems).value;
    } else if y.Many? {
      assert forall d :: d in x.elems <==> d in multiset(x.elems);
      assert forall d :: d in y.elems <==> d in multiset(y.elems);
      assert y.elems != [] ==> y.elems[0] in x.elems;
      assert x.elems != [] ==> x.elems[0] in y.elems;
    }
  }

  /**
   What being the same means: equal, or lists that hold the same values equally often, or lists of rows that hold the
   same rows.
   */
  predicate SameUpToOrder(x: Data, y: Data) {
    || x == y
    || (x.Many? && y.Many?
        && if StartsWithDict(x) && StartsWithDict(y)
           then forall d :: d in x.elems + y.elems ==> d in x.elems && d in y.elems
           else forall d :: d in x.elems + y.elems ==> multiset(x.elems)[d] == multiset(y.elems)[d])
  }

  /** Comparing decides that, wherever it does not raise. */
  lemma SameMeans(x: Data, y: Data)
    requires IsSameData(x, y).Ok?
    ensures IsSameData(x, y) == Ok(true) <==> SameUpToOrder(x, y)
    ensures !(x.Many? && y.Many?) ==> (IsSameData(x, y) == Ok(true) <==> x == y)
  {
    if StartsWithDict(x) && StartsWithDict(y) {
      RowsAre(x.elems);
      RowsAre(y.elems);
      assert forall d :: d in x.elems <==> d in Rows(x.elems).value;
      assert forall d :: d in y.elems <==> d in Rows(y.elems).value;
    } else if x.Many? && y.Many? {
      var a, b := multiset(x.elems), multiset(y.elems);
      if forall d :: d in x.elems + y.elems ==> a[d] == b[d] {
        assert forall d :: d !in x.elems + y.elems ==> a[d] == b[d] == 0;
        assert a == b;
      }
    }
  }

  /** On comparable values being the same is an equivalence. */
  lemma SameIsAnEquivalence(x: Data, y: Data, z: Data)
    requires Comparable(x) && Comparable(y) && Comparable(z)
    ensures IsSameData(x, x) == Ok(true)
    ensures IsSameData(x, y) == IsSameData(y, x)
    ensures IsSameData(x, y) == Ok(true) && IsSameData(y, z) == Ok(true) ==> IsSameData(x, z) == Ok(true)
  {
    SameIsReflexive(x);
    SameRaises(x, y);
    SameRaises(x, z);
    if IsSameData(x, y) == Ok(true) && IsSameData(y, z) == Ok(true) && x.Many? && y.Many? {
      SameElements(x, y);
      SameElements(y, z);
    }
  }

  ghost predicate TotalOrder(le: (Data, Data) -> bool) {
    (forall a, b :: le(a, b) || le(b, a)) && (forall a, b :: le(a, b) && le(b, a) ==> a == b)
    && (forall a, b, c :: le(a, b) && le(b, c) ==> le(a, c))
  }

  ghost predicate Sorted(ds: seq<Data>, le: (Data, Data) -> bool) {
    forall i, j :: 0 <= i < j < |ds| ==> le(ds[i], ds[j])
  }

  lemma SameLeast(xs: seq<Data>, ys: seq<Data>, le: (Data, Data) -> bool)
    requires TotalOrder(le) && Sorted(xs, le) && Sorted(ys, le) && multiset(xs) == multiset(ys) && xs != []
    ensures ys != [] && xs[0] == ys[0]
  {
    assert xs[0] in multiset(ys);
    assert ys[0] in multiset(xs);
    var i :| 0 <= i < |ys| && ys[i] == xs[0];
    var j :| 0 <= j < |xs| && xs[j] == ys[0];
  }

  lemma RestHolds(xs: seq<Data>)
    requires xs != []
    ensures multiset(xs[1..]) == multiset(xs) - multiset{xs[0]}
  {
    assert xs == [xs[0]] + xs[1..];
  }

  /** sorted(x) == sorted(y) says that both hold the same values equally often, whatever the order is. */
  lemma {:induction false} SortedListsAgree(xs: seq<Data>, ys: seq<Data>, le: (Data, Data) -> bool)
    requires TotalOrder(le) && Sorted(xs, le) && Sorted(ys, le)
    ensures xs == ys <==> multiset(xs) == multiset(ys)
  {
    if multiset(xs) == multiset(ys) {
      if xs == [] {
        assert |ys| == |multiset(xs)|;
      } else {
        SameLeast(xs, ys, le);
        RestHolds(xs);
        RestHolds(ys);
        assert Sorted(xs[1..], le) && Sorted(ys[1..], le);
        SortedListsAgree(xs[1..], ys[1..], le);
        assert xs == [xs[0]] + xs[1..] && ys == [ys[0]] + ys[1..];
      }
    }
  }
}
