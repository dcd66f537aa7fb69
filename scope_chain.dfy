/**
 * The lookup and update rules of the scope chain of Scope.java, on values.
 *
 * A chain is the sequence of one kind of map (symbols, or properties) of the
 * scopes from the current one (index 0) to the root (the last index).  A map
 * entry is `Some(x)` for a stored object and `None` for a stored Java `null`;
 * a key that is missing and a key mapped to `null` look the same to the
 * source (`map.get(name) == null`), which `Bound` captures.
 */
module ScopeChain {
  import opened Values

  type Frame<V> = map<string, Option<V>>

  /** `map.get(name) != null` */
  predicate Bound<V>(m: Frame<V>, name: string) {
    name in m && m[name].Some?
  }

  /** The nearest scope, counted from the current one, that binds `name`. */
  function Owner<V>(maps: seq<Frame<V>>, name: string): (r: Option<nat>)
    ensures r.Some? ==> r.value < |maps| && Bound(maps[r.value], name)
    ensures r.Some? ==> forall j :: 0 <= j < r.value ==> !Bound(maps[j], name)
    ensures r.None? <==> forall j :: 0 <= j < |maps| ==> !Bound(maps[j], name)
  {
    if maps == [] then None
    else if Bound(maps[0], name) then Some(0)
    else match Owner(maps[1..], name)
      case None => None
      case Some(k) => Some(k + 1)
  }

  /**
   * `getSymbol`/`getProperty`: the local binding if there is one, otherwise
   * the parent's answer; the root's missing parent answers "not found".
   */
  function Lookup<V>(maps: seq<Frame<V>>, name: string): Option<V> {
    if maps == [] then None
    else if Bound(maps[0], name) then maps[0][name]
    else Lookup(maps[1..], name)
  }

  /** Lookup returns the binding of the nearest scope that binds the name, and "not found" when none does. */
  lemma {:induction false} LookupIsNearest<V>(maps: seq<Frame<V>>, name: string)
    ensures Lookup(maps, name) == if Owner(maps, name).Some? then maps[Owner(maps, name).value][name] else None
    ensures Lookup(maps, name).Some? <==> exists k :: 0 <= k < |maps| && Bound(maps[k], name)
  {
    if maps != [] && !Bound(maps[0], name) {
      LookupIsNearest(maps[1..], name);
      if Owner(maps[1..], name).None? {
        assert forall k :: 1 <= k < |maps| ==> maps[k] == maps[1..][k - 1];
      } else {
        var k := Owner(maps[1..], name).value;
        assert maps[1..][k] == maps[k + 1];
      }
    }
    if Owner(maps, name).Some? {
      var k := Owner(maps, name).value;
      assert 0 <= k < |maps| && Bound(maps[k], name);
    }
  }

  /** The scope nearest the root that binds `name`. */
  function Outermost<V>(maps: seq<Frame<V>>, name: string): (r: Option<nat>)
    ensures r.Some? ==> r.value < |maps| && Bound(maps[r.value], name)
    ensures r.Some? ==> forall j :: r.value < j < |maps| ==> !Bound(maps[j], name)
    ensures r.None? <==> forall j :: 0 <= j < |maps| ==> !Bound(maps[j], name)
  {
    if maps == [] then None
    else match Outermost(maps[1..], name)
      case Some(k) => Some(k + 1)
      case None => if Bound(maps[0], name) then Some(0) else None
  }

  /**
   * The scope `putSymbol`/`putProperty` writes.  Each scope hands the put to
   * its parent whenever the parent chain binds the name, so the write lands
   * in the ancestor NEAREST THE ROOT that binds it; the current scope's own
   * map is not consulted.  With no ancestor binding it, the current scope
   * stores it.
   */
  function PutTarget<V>(maps: seq<Frame<V>>, name: string): (t: nat)
    requires |maps| > 0
    ensures t < |maps|
    ensures t == 0 <==> forall j :: 0 < j < |maps| ==> !Bound(maps[j], name)
    ensures t > 0 ==> Bound(maps[t], name) && forall j :: t < j < |maps| ==> !Bound(maps[j], name)
  {
    match Outermost(maps[1..], name)
    case None =>
      assert forall j :: 0 < j < |maps| ==> maps[j] == maps[1..][j - 1];
      0
    case Some(k) =>
      assert maps[1..][k] == maps[k + 1];
      assert forall j :: k + 1 < j < |maps| ==> maps[j] == maps[1..][j - 1];
      k + 1
  }

  /** The characterisation of `PutTarget` determines it. */
  lemma PutTargetUnique<V>(maps: seq<Frame<V>>, name: string, t: nat)
    requires t < |maps|
    requires t == 0 ==> forall j :: 0 < j < |maps| ==> !Bound(maps[j], name)
    requires t > 0 ==> Bound(maps[t], name) && forall j :: t < j < |maps| ==> !Bound(maps[j], name)
    ensures PutTarget(maps, name) == t
  {
  }

  /**
   * `putSymbol`/`putProperty`: when the parent chain finds the name, the
   * parent puts it; otherwise the current map stores it.
   */
  function Put<V>(maps: seq<Frame<V>>, name: string, v: V): (r: seq<Frame<V>>)
    requires |maps| > 0
    ensures |r| == |maps|
  {
    if Lookup(maps[1..], name).Some? then [maps[0]] + Put(maps[1..], name, v)
    else [maps[0][name := Some(v)]] + maps[1..]
  }

  /** A put changes exactly one map of the chain, the target's, and only at `name`. */
  lemma {:induction false} PutWritesTarget<V>(maps: seq<Frame<V>>, name: string, v: V)
    requires |maps| > 0
    ensures var t := PutTarget(maps, name);
      Put(maps, name, v) == maps[t := maps[t][name := Some(v)]]
  {
    var t := PutTarget(maps, name);
    LookupIsNearest(maps[1..], name);
    if Lookup(maps[1..], name).Some? {
      PutTargetStep(maps, name);
      var t' := PutTarget(maps[1..], name);
      PutWritesTarget(maps[1..], name, v);
      assert Put(maps, name, v) == [maps[0]] + maps[1..][t' := maps[1..][t'][name := Some(v)]];
    } else {
      assert forall j :: 0 < j < |maps| ==> maps[j] == maps[1..][j - 1];
      assert t == 0;
    }
  }

  /** One level up, the same scope is the target. */
  lemma PutTargetStep<V>(maps: seq<Frame<V>>, name: string)
    requires |maps| > 1 && Lookup(maps[1..], name).Some?
    ensures PutTarget(maps, name) == PutTarget(maps[1..], name) + 1
  {
    var t' := PutTarget(maps[1..], name);
    assert forall j :: 0 < j < |maps| ==> maps[j] == maps[1..][j - 1];
    if t' == 0 {
      LookupIsNearest(maps[1..], name);
      assert Bound(maps[1], name);
    }
    PutTargetUnique(maps, name, t' + 1);
  }

  /**
   * Reading the name back from the scope that wrote it yields the new value
   * exactly when no scope below the target binds it.  Otherwise the nearest
   * such binding, left unchanged, still shadows the new value.
   */
  lemma {:induction false} GetAfterPut<V>(maps: seq<Frame<V>>, name: string, v: V)
    requires |maps| > 0
    ensures (forall j :: 0 <= j < PutTarget(maps, name) ==> !Bound(maps[j], name))
      ==> Lookup(Put(maps, name, v), name) == Some(v)
    ensures Owner(maps, name).Some? && Owner(maps, name).value < PutTarget(maps, name)
      ==> Lookup(Put(maps, name, v), name) == maps[Owner(maps, name).value][name]
  {
    var t := PutTarget(maps, name);
    var after := Put(maps, name, v);
    PutWritesTarget(maps, name, v);
    LookupIsNearest(after, name);
    if forall j :: 0 <= j < t ==> !Bound(maps[j], name) {
      OwnerIs(after, name, t);
    }
    if Owner(maps, name).Some? && Owner(maps, name).value < t {
      OwnerIs(after, name, Owner(maps, name).value);
    }
  }

  /** The characterisation of `Owner` determines it. */
  lemma OwnerIs<V>(maps: seq<Frame<V>>, name: string, o: nat)
    requires o < |maps| && Bound(maps[o], name) && forall j :: 0 <= j < o ==> !Bound(maps[j], name)
    ensures Owner(maps, name) == Some(o)
  {
  }

  /** A put leaves every other name's lookup as it was, from the writing scope. */
  lemma PutLeavesOtherNames<V>(maps: seq<Frame<V>>, name: string, other: string, v: V)
    requires |maps| > 0 && other != name
    ensures Lookup(Put(maps, name, v), other) == Lookup(maps, other)
  {
    var t := PutTarget(maps, name);
    PutWritesTarget(maps, name, v);
    SameBindingsSameLookup(maps, Put(maps, name, v), other);
  }

  lemma {:induction false} SameBindingsSameLookup<V>(a: seq<Frame<V>>, b: seq<Frame<V>>, name: string)
    requires |a| == |b|
    requires forall j :: 0 <= j < |a| ==> (name in a[j] <==> name in b[j]) && (name in a[j] ==> a[j][name] == b[j][name])
    ensures Lookup(a, name) == Lookup(b, name)
  {
    if a != [] {
      SameBindingsSameLookup(a[1..], b[1..], name);
    }
  }

  /** Putting the same value twice is the same as putting it once. */
  lemma PutIdempotent<V>(maps: seq<Frame<V>>, name: string, v: V)
    requires |maps| > 0
    ensures Put(Put(maps, name, v), name, v) == Put(maps, name, v)
  {
    var t := PutTarget(maps, name);
    var once := Put(maps, name, v);
    PutWritesTarget(maps, name, v);
    assert forall j :: 0 < j < |maps| && j != t ==> once[j] == maps[j];
    PutTargetUnique(once, name, t);
    PutWritesTarget(once, name, v);
    assert once[t][name := Some(v)] == once[t];
  }

  /**
   * Two children of one parent that binds `a` (and no scope above binds it):
   * `a = 5` from one child updates the parent, and a fresh lookup from the
   * sibling sees 5; neither child's own map changes.
   */
  lemma SiblingSeesUpdate<V>(c1: Frame<V>, c2: Frame<V>, p: Frame<V>, above: seq<Frame<V>>, name: string, v: V)
    requires !Bound(c1, name) && !Bound(c2, name) && Bound(p, name) && Lookup(above, name).None?
    ensures Put([c1, p] + above, name, v) == [c1, p[name := Some(v)]] + above
    ensures Lookup([c2, p[name := Some(v)]] + above, name) == Some(v)
    ensures Lookup(Put([c1, p] + above, name, v), name) == Some(v)
  {
    assert ([c1, p] + above)[1..] == [p] + above;
    assert ([p] + above)[1..] == above;
    assert ([c2, p[name := Some(v)]] + above)[1..] == [p[name := Some(v)]] + above;
  }

  // ---------------------------------------------------------------------
  // The code as written: the root has no parent and dereferences it anyway

  datatype Got<V> = Found(value: V) | NullPointer

  /** `getSymbol` as written: at the root a miss calls `getSymbol` on `null`. */
  function GetAsWritten<V>(maps: seq<Frame<V>>, name: string): Got<V>
    requires |maps| > 0
  {
    if Bound(maps[0], name) then Found(maps[0][name].value)
    else if |maps| == 1 then NullPointer
    else GetAsWritten(maps[1..], name)
  }

  /** `putSymbol` as written; `None` is the `NullPointerException`. */
  function PutAsWritten<V>(maps: seq<Frame<V>>, name: string, v: V): Option<seq<Frame<V>>>
    requires |maps| > 0
  {
    if |maps| == 1 then None
    else match GetAsWritten(maps[1..], name)
      case NullPointer => None
      case Found(_) =>
        match PutAsWritten(maps[1..], name, v)
        case None => None
        case Some(rest) => Some([maps[0]] + rest)
  }

  /** As written, a lookup agrees with `Lookup` on every hit and throws on every miss. */
  lemma {:induction false} GetAsWrittenAgrees<V>(maps: seq<Frame<V>>, name: string)
    requires |maps| > 0
    ensures GetAsWritten(maps, name) == NullPointer <==> Lookup(maps, name).None?
    ensures Lookup(maps, name).Some? ==> GetAsWritten(maps, name) == Found(Lookup(maps, name).value)
  {
    if !Bound(maps[0], name) && |maps| > 1 {
      GetAsWrittenAgrees(maps[1..], name);
    }
  }

  /** As written, every put throws: no scope chain can ever be written. */
  lemma {:induction false} PutAsWrittenAlwaysThrows<V>(maps: seq<Frame<V>>, name: string, v: V)
    requires |maps| > 0
    ensures PutAsWritten(maps, name, v) == None
  {
    if |maps| > 1 {
      PutAsWrittenAlwaysThrows(maps[1..], name, v);
    }
  }
}
