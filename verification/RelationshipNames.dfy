/** When the renaming of maps with one id keeps their ids apart. */
module RelationshipNames {
  import opened PyStrings
  import opened RelationshipState
  import opened RelationshipLaws

  function Suffixed(id: string, n: nat): string {
    id + "_" + Decimal(n)
  }

  lemma {:induction false} DecimalIsInjective(m: nat, n: nat)
    requires Decimal(m) == Decimal(n)
    ensures m == n
  {
    var a, b := Decimal(m), Decimal(n);
    DigitIsInjective(m % 10, n % 10);
    assert a[|a| - 1] == "0123456789"[m % 10] && b[|b| - 1] == "0123456789"[n % 10];
    if m >= 10 { DecimalDigits(m / 10); }
    if n >= 10 { DecimalDigits(n / 10); }
    if m >= 10 && n >= 10 {
      assert Decimal(m / 10) == a[..|a| - 1] == b[..|b| - 1] == Decimal(n / 10);
      DecimalIsInjective(m / 10, n / 10);
    }
  }

  lemma DigitIsInjective(i: nat, j: nat)
    requires i < 10 && j < 10
    ensures "0123456789"[i] == "0123456789"[j] ==> i == j
  {
  }

  predicate Numeric(d: string) {
    forall k :: 0 <= k < |d| ==> d[k] in "0123456789"
  }

  /** The last underscore tells the id from its suffix. */
  lemma LastUnderscore(a: string, d: string, b: string, e: string)
    requires a + "_" + d == b + "_" + e && Numeric(d)
    ensures |a| >= |b|
  {
    var s := a + "_" + d;
    assert s[|b|] == '_';
    assert forall k :: |a| < k < |s| ==> s[k] == d[k - |a| - 1];
  }

  lemma SuffixIsInjective(a: string, m: nat, b: string, n: nat)
    requires Suffixed(a, m) == Suffixed(b, n)
    ensures a == b && m == n
  {
    var d, e := Decimal(m), Decimal(n);
    DecimalDigits(m);
    DecimalDigits(n);
    LastUnderscore(a, d, b, e);
    LastUnderscore(b, e, a, d);
    assert a == (a + "_" + d)[..|a|] && b == (b + "_" + e)[..|b|];
    assert d == (a + "_" + d)[|a| + 1..] && e == (b + "_" + e)[|b| + 1..];
    DecimalIsInjective(m, n);
  }

  /** How often the id of map k occurs before it. */
  function Before(ids: seq<string>, k: nat): nat
    requires k < |ids|
  {
    multiset(ids[..k])[ids[k]]
  }

  lemma {:induction false} NewIdAt(seen: multiset<string>, maps: seq<ObjMap>, k: nat)
    requires k < |maps|
    ensures NewIds(seen, maps)[k] == NewId(seen + multiset(Ids(maps)[..k]), maps[k].id)
    decreases k
  {
    hide NewId;
    if k == 0 {
      assert Ids(maps)[..0] == [] && seen + multiset(Ids(maps)[..0]) == seen;
    } else {
      NewIdAt(seen + multiset{maps[0].id}, maps[1..], k - 1);
      assert Ids(maps)[..k] == [maps[0].id] + Ids(maps[1..])[..k - 1];
      assert seen + multiset(Ids(maps)[..k]) == seen + multiset{maps[0].id} + multiset(Ids(maps[1..])[..k - 1]);
      assert NewIds(seen, maps)[k] == NewIds(seen + multiset{maps[0].id}, maps[1..])[k - 1];
    }
  }

  lemma NewIdIs(maps: seq<ObjMap>, k: nat)
    requires k < |maps|
    ensures var ids := Ids(maps);
            NewIds(multiset{}, maps)[k] == if Before(ids, k) == 0 then ids[k] else Suffixed(ids[k], Before(ids, k) + 1)
  {
    NewIdAt(multiset{}, maps, k);
    assert multiset{} + multiset(Ids(maps)[..k]) == multiset(Ids(maps)[..k]);
  }

  lemma BeforeGrows(ids: seq<string>, i: nat, j: nat)
    requires i < j < |ids| && ids[i] == ids[j]
    ensures Before(ids, i) < Before(ids, j)
  {
    assert ids[..j] == ids[..i] + [ids[i]] + ids[i + 1..j];
  }

  lemma BeforeIsBelow(ids: seq<string>, k: nat)
    requires k < |ids|
    ensures Before(ids, k) < multiset(ids)[ids[k]]
  {
    assert ids == ids[..k] + [ids[k]] + ids[k + 1..];
  }

  /** Every occurrence up to the count can be found. */
  lemma {:induction false} Occurrence(ids: seq<string>, id: string, n: nat) returns (k: nat)
    requires n < multiset(ids)[id]
    ensures k < |ids| && ids[k] == id && Before(ids, k) == n
    decreases |ids|
  {
    var front := ids[..|ids| - 1];
    assert ids == front + [ids[|ids| - 1]];
    if n < multiset(front)[id] {
      k := Occurrence(front, id, n);
      assert front[..k] == ids[..k];
    } else {
      k := |ids| - 1;
    }
  }

  /** Some map's own id is what the renaming makes of a repeated one. */
  ghost predicate Collides(ids: seq<string>) {
    exists a: string, b: string, n: nat :: a in ids && 2 <= n <= multiset(ids)[b] && a == Suffixed(b, n)
  }

  lemma NoCollision(ids: seq<string>, a: string, b: string, n: nat)
    requires !Collides(ids) && a in ids && 2 <= n <= multiset(ids)[b]
    ensures a != Suffixed(b, n)
  {
  }

  lemma ApartUnlessColliding(maps: seq<ObjMap>, i: nat, j: nat)
    requires i < j < |maps| && !Collides(Ids(maps))
    ensures NewIds(multiset{}, maps)[i] != NewIds(multiset{}, maps)[j]
  {
    hide NewIds, Suffixed, Before, Collides;
    var ids := Ids(maps);
    NewIdIs(maps, i);
    NewIdIs(maps, j);
    BeforeIsBelow(ids, i);
    BeforeIsBelow(ids, j);
    var a, b, m, n := ids[i], ids[j], Before(ids, i) + 1, Before(ids, j) + 1;
    assert a in ids && b in ids;
    if a == b { BeforeGrows(ids, i, j); }
    if n > 1 { NoCollision(ids, a, b, n); }
    if m > 1 { NoCollision(ids, b, a, m); }
    if m > 1 && n > 1 && Suffixed(a, m) == Suffixed(b, n) { SuffixIsInjective(a, m, b, n); }
  }

  lemma CollisionShows(maps: seq<ObjMap>, a: string, b: string, n: nat)
    requires a in Ids(maps) && 2 <= n <= multiset(Ids(maps))[b] && a == Suffixed(b, n)
    ensures !Distinct(NewIds(multiset{}, maps))
  {
    hide NewIds, Before, Decimal;
    var ids := Ids(maps);
    var i := Occurrence(ids, a, 0);
    var j := Occurrence(ids, b, n - 1);
    NewIdIs(maps, i);
    NewIdIs(maps, j);
    assert |a| > |b|;
    assert i != j && NewIds(multiset{}, maps)[i] == NewIds(multiset{}, maps)[j];
  }

  /** The new ids are distinct exactly when no id a plugin sent is another's id with the number of a repetition. */
  lemma RenamingKeepsApart(maps: seq<ObjMap>)
    ensures Distinct(NewIds(multiset{}, maps)) <==> !Collides(Ids(maps))
  {
    var ids := Ids(maps);
    if !Collides(ids) {
      forall i, j | 0 <= i < j < |maps| ensures NewIds(multiset{}, maps)[i] != NewIds(multiset{}, maps)[j] {
        ApartUnlessColliding(maps, i, j);
      }
    } else {
      var a: string, b: string, n: nat :| a in ids && 2 <= n <= multiset(ids)[b] && a == Suffixed(b, n);
      CollisionShows(maps, a, b, n);
    }
  }

  /** Ids that are distinct from the start are kept, and only those. */
  lemma DistinctIdsAreKept(maps: seq<ObjMap>)
    ensures NewIds(multiset{}, maps) == Ids(maps) <==> Distinct(Ids(maps))
  {
    var ids := Ids(maps);
    forall k | 0 <= k < |maps|
      ensures NewIds(multiset{}, maps)[k] == ids[k] <==> Before(ids, k) == 0
      ensures Before(ids, k) == 0 <==> ids[k] !in ids[..k]
    {
      NewIdIs(maps, k);
    }
    if NewIds(multiset{}, maps) == ids {
      forall i, j | 0 <= i < j < |ids| ensures ids[i] != ids[j] {
        assert Before(ids, j) == 0 && ids[i] in ids[..j];
      }
    }
  }
}
