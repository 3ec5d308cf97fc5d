/** Adding up the metrics of all nodes: JSON trees merged into one another in place. */
module Metrics {
  import opened Protocol

  /** JSON as far as merging tells values apart: integers up to 64 bits of either
      sign, other numbers, objects, and the rest. */
  datatype Value = Int(n: int) | Float(text: string) | Object(fields: map<string, Value>) | Other(text: string)

  const I64_MIN: int := -0x8000_0000_0000_0000
  const I64_MAX: int := 0x7FFF_FFFF_FFFF_FFFF
  const TWO_64: int := 0x1_0000_0000_0000_0000

  const NOTHING: Value := Object(map[])

  predicate IsI64(v: Value) { v.Int? && I64_MIN <= v.n <= I64_MAX }

  predicate IsNumber(v: Value) { v.Int? || v.Float? }

  /** Two's complement: what an unchecked 64-bit addition leaves. */
  function Wrap(n: int): int { (n - I64_MIN) % TWO_64 + I64_MIN }

  lemma WrapAbsorbs(a: int, b: int)
    ensures Wrap(Wrap(a) + b) == Wrap(a + b) && Wrap(a + Wrap(b)) == Wrap(a + b)
    ensures I64_MIN <= Wrap(a) <= I64_MAX
    ensures I64_MIN <= a <= I64_MAX ==> Wrap(a) == a
  {
    var q := (a - I64_MIN) / TWO_64;
    assert Wrap(a) == a - q * TWO_64;
    var r := (b - I64_MIN) / TWO_64;
    assert Wrap(b) == b - r * TWO_64;
    ModShift(a + b - I64_MIN, q);
    ModShift(a + b - I64_MIN, r);
  }

  lemma ModShift(x: int, q: int)
    ensures (x - q * TWO_64) % TWO_64 == x % TWO_64
  {
    var y := x - q * TWO_64;
    assert y == TWO_64 * (x / TWO_64 - q) + x % TWO_64;
    SameRemainder(y, x / TWO_64 - q, x % TWO_64);
  }

  lemma SameRemainder(y: int, q: int, r: int)
    requires y == TWO_64 * q + r && 0 <= r < TWO_64
    ensures y % TWO_64 == r
  {
  }

  // -- one merge ------------------------------------------------------------------------------

  /** What a field becomes, given what was there and what the other side has. */
  ghost function MergeField(key: string, l: Option<Value>, r: Value): Option<Value>
    decreases r, 1
  {
    if key == "apps" then Some(MergeApps(if l.Some? then l.value else NOTHING, r))
    else if l.Some? && IsI64(r) then (if IsI64(l.value) then Some(Int(Wrap(l.value.n + r.n))) else l)
    else if IsNumber(r) && l == None then Some(r)
    else l
  }

  ghost function Field(v: map<string, Value>, key: string): Option<Value> { if key in v then Some(v[key]) else None }

  /** Under "apps": every app of the other side is merged into the app of that name. */
  ghost function MergeApps(l: Value, r: Value): Value
    decreases r, 0
  {
    if !l.Object? || !r.Object? then l
    else
      Object(map a | a in l.fields.Keys + r.fields.Keys ::
               if a !in r.fields then l.fields[a]
               else Merge(if a in l.fields then l.fields[a] else NOTHING, r.fields[a]))
  }

  ghost function Merge(l: Value, r: Value): Value
    decreases r, 2
  {
    if !l.Object? || !r.Object? then l
    else
      Object(map k | k in l.fields.Keys + r.fields.Keys
                  && (k in r.fields ==> MergeField(k, Field(l.fields, k), r.fields[k]).Some?) ::
               if k !in r.fields then l.fields[k] else MergeField(k, Field(l.fields, k), r.fields[k]).value)
  }

  lemma SameFields(a: map<string, Value>, b: map<string, Value>)
    requires forall k :: Field(a, k) == Field(b, k)
    ensures a == b
  {
    assert forall k :: k in a <==> Field(a, k).Some?;
    assert forall k :: k in b <==> Field(b, k).Some?;
    forall k | k in a ensures k in b && a[k] == b[k] { assert Field(a, k) == Field(b, k); }
    forall k | k in b ensures k in a { assert Field(a, k) == Field(b, k); }
  }

  /** Merges `remote` into `local`, field by field. */
  method MergeMetrics(local: Value, remote: Value) returns (merged: Value)
    ensures merged == Merge(local, remote)
    decreases remote, 2
  {
    if !local.Object? || !remote.Object? {
      return local;
    }
    var l, r := local.fields, remote.fields;
    var todo := r.Keys;
    while todo != {}
      invariant todo <= r.Keys
      invariant forall k ::
                  Field(l, k) == if k in r.Keys - todo then MergeField(k, Field(local.fields, k), r[k])
                                 else Field(local.fields, k)
      decreases todo
    {
      var key :| key in todo;
      var remoteVal := r[key];
      ghost var was := Field(l, key);
      if key == "apps" {
        if key !in l {
          l := l[key := NOTHING];
        }
        var apps := MergeAllApps(l[key], remoteVal);
        l := l[key := apps];
      } else if key in l && IsI64(remoteVal) {
        if IsI64(l[key]) {
          l := l[key := Int(Wrap(l[key].n + remoteVal.n))];
        }
      } else if IsNumber(remoteVal) {
        if key !in l {
          l := l[key := remoteVal];
        }
      }
      assert Field(l, key) == MergeField(key, was, remoteVal);
      todo := todo - {key};
    }
    SameFields(l, Merge(local, remote).fields);
    merged := Object(l);
  }

  method MergeAllApps(local: Value, remote: Value) returns (merged: Value)
    ensures merged == MergeApps(local, remote)
    decreases remote, 0
  {
    if !local.Object? || !remote.Object? {
      return local;
    }
    var l, r := local.fields, remote.fields;
    var todo := r.Keys;
    while todo != {}
      invariant todo <= r.Keys
      invariant l.Keys == local.fields.Keys + (r.Keys - todo)
      invariant forall a :: a in l ==>
                  var was := if a in local.fields then local.fields[a] else NOTHING;
                  l[a] == if a in r.Keys - todo then Merge(was, r[a]) else was
      decreases todo
    {
      var app :| app in todo;
      if app !in l {
        l := l[app := NOTHING];
      }
      var one := MergeMetrics(l[app], r[app]);
      l := l[app := one];
      todo := todo - {app};
    }
    merged := Object(l);
  }

  // -- what a merge adds up ---------------------------------------------------------------------

  /** What nodes report: integers, and objects of the same shape under "apps" only. */
  ghost predicate WellFormed(v: Value)
    decreases v
  {
    && v.Object?
    && forall k :: k in v.fields ==> if k == "apps" then WellFormedApps(v.fields[k]) else IsI64(v.fields[k])
  }

  ghost predicate WellFormedApps(v: Value)
    decreases v
  {
    v.Object? && forall a :: a in v.fields ==> WellFormed(v.fields[a])
  }

  type Path = seq<string>

  ghost predicate Has(v: Value, path: Path)
    decreases |path|
  {
    path == [] || (v.Object? && path[0] in v.fields && Has(v.fields[path[0]], path[1..]))
  }

  /** The integer at the end of a path; 0 if there is none. */
  ghost function Leaf(v: Value, path: Path): int
    decreases |path|
  {
    if path == [] then (if v.Int? then v.n else 0)
    else if v.Object? && path[0] in v.fields then Leaf(v.fields[path[0]], path[1..])
    else 0
  }

  /** A merge has the fields of both sides and at each the wrapped sum. */
  lemma {:induction false} MergeAdds(l: Value, r: Value, path: Path)
    requires WellFormed(l) && WellFormed(r)
    ensures WellFormed(Merge(l, r))
    ensures Has(Merge(l, r), path) == (Has(l, path) || Has(r, path))
    ensures Leaf(Merge(l, r), path) == Wrap(Leaf(l, path) + Leaf(r, path))
    decreases r, 2
  {
    var m := Merge(l, r);
    forall k | k in m.fields ensures if k == "apps" then WellFormedApps(m.fields[k]) else IsI64(m.fields[k]) {
      FieldAdds(l, r, k, []);
    }
    if path != [] {
      FieldAdds(l, r, path[0], path[1..]);
    }
  }

  /** One field of a merge. */
  lemma FieldAdds(l: Value, r: Value, k: string, rest: Path)
    requires WellFormed(l) && WellFormed(r)
    ensures k in Merge(l, r).fields <==> k in l.fields || k in r.fields
    ensures k in Merge(l, r).fields ==>
              if k == "apps" then WellFormedApps(Merge(l, r).fields[k]) else IsI64(Merge(l, r).fields[k])
    ensures Has(Merge(l, r), [k] + rest) == (Has(l, [k] + rest) || Has(r, [k] + rest))
    ensures Leaf(Merge(l, r), [k] + rest) == Wrap(Leaf(l, [k] + rest) + Leaf(r, [k] + rest))
    decreases r, 1
  {
    hide Wrap;
    assert ([k] + rest)[1..] == rest;
    LeafIsI64(l, [k] + rest);
    LeafIsI64(r, [k] + rest);
    WrapAbsorbs(Leaf(l, [k] + rest), 0);
    WrapAbsorbs(Leaf(r, [k] + rest), 0);
    if k in r.fields {
      if k == "apps" {
        AppsAdd(if k in l.fields then l.fields[k] else NOTHING, r.fields[k], rest);
      } else if k in l.fields {
        WrapAbsorbs(l.fields[k].n + r.fields[k].n, 0);
      }
    }
  }

  lemma {:induction false} AppsAdd(l: Value, r: Value, path: Path)
    requires WellFormedApps(l) && WellFormedApps(r)
    ensures WellFormedApps(MergeApps(l, r))
    ensures Has(MergeApps(l, r), path) == (Has(l, path) || Has(r, path))
    ensures Leaf(MergeApps(l, r), path) == Wrap(Leaf(l, path) + Leaf(r, path))
    decreases r, 0
  {
    var m := MergeApps(l, r);
    forall a | a in m.fields ensures WellFormed(m.fields[a]) {
      if a in r.fields {
        MergeAdds(if a in l.fields then l.fields[a] else NOTHING, r.fields[a], []);
      }
    }
    if path != [] {
      var a := path[0];
      if a in r.fields {
        MergeAdds(if a in l.fields then l.fields[a] else NOTHING, r.fields[a], path[1..]);
      } else if a in l.fields {
        LeafIsI64(l.fields[a], path[1..]);
        WrapAbsorbs(Leaf(l.fields[a], path[1..]), 0);
      }
    }
  }

  lemma {:induction false} LeafIsI64(v: Value, path: Path)
    requires WellFormed(v) || WellFormedApps(v) || IsI64(v)
    ensures I64_MIN <= Leaf(v, path) <= I64_MAX
    decreases |path|
  {
    if path != [] && v.Object? && path[0] in v.fields {
      LeafIsI64(v.fields[path[0]], path[1..]);
    }
  }

  // -- trees are what they say at every path ------------------------------------------------------

  ghost predicate SaySame(a: Value, b: Value) {
    forall p: Path :: Has(a, p) == Has(b, p) && Leaf(a, p) == Leaf(b, p)
  }

  lemma SaySameBelow(a: Value, b: Value, k: string)
    requires a.Object? && b.Object? && SaySame(a, b) && k in a.fields && k in b.fields
    ensures SaySame(a.fields[k], b.fields[k])
  {
    forall p: Path ensures Has(a.fields[k], p) == Has(b.fields[k], p) && Leaf(a.fields[k], p) == Leaf(b.fields[k], p) {
      assert ([k] + p)[1..] == p;
      assert Has(a, [k] + p) == Has(b, [k] + p) && Leaf(a, [k] + p) == Leaf(b, [k] + p);
    }
  }

  lemma {:induction false} SayingSameIsEqual(a: Value, b: Value)
    requires SaySame(a, b)
    requires (WellFormed(a) && WellFormed(b)) || (WellFormedApps(a) && WellFormedApps(b)) || (IsI64(a) && IsI64(b))
    ensures a == b
    decreases a
  {
    if a.Object? {
      forall k | k in a.fields || k in b.fields ensures k in a.fields && k in b.fields && a.fields[k] == b.fields[k] {
        assert Has(a, [k]) == (k in a.fields && Has(a.fields[k], []));
        assert Has(b, [k]) == (k in b.fields && Has(b.fields[k], []));
        assert Has(a, [k]) == Has(b, [k]);
        SaySameBelow(a, b, k);
        SayingSameIsEqual(a.fields[k], b.fields[k]);
      }
      assert a.fields == b.fields;
    } else {
      assert Leaf(a, []) == Leaf(b, []);
    }
  }

  /** On what nodes report, merging is commutative and associative, with the empty
      object as its unit. */
  lemma MergeLaws(a: Value, b: Value, c: Value)
    requires WellFormed(a) && WellFormed(b) && WellFormed(c)
    ensures Merge(a, b) == Merge(b, a)
    ensures Merge(Merge(a, b), c) == Merge(a, Merge(b, c))
    ensures Merge(a, NOTHING) == a == Merge(NOTHING, a)
  {
    MergeAdds(a, b, []);
    MergeAdds(b, a, []);
    MergeAdds(b, c, []);
    forall p: Path ensures Has(Merge(a, b), p) == Has(Merge(b, a), p) && Leaf(Merge(a, b), p) == Leaf(Merge(b, a), p) {
      MergeAdds(a, b, p);
      MergeAdds(b, a, p);
    }
    SayingSameIsEqual(Merge(a, b), Merge(b, a));
    MergeAssociates(a, b, c);
    MergeUnit(a);
  }

  lemma MergeAssociates(a: Value, b: Value, c: Value)
    requires WellFormed(a) && WellFormed(b) && WellFormed(c)
    ensures Merge(Merge(a, b), c) == Merge(a, Merge(b, c))
  {
    hide Merge, WellFormed, Has, Leaf;
    forall p: Path
      ensures Has(Merge(Merge(a, b), c), p) == Has(Merge(a, Merge(b, c)), p)
      ensures Leaf(Merge(Merge(a, b), c), p) == Leaf(Merge(a, Merge(b, c)), p)
    {
      AssociatesAt(a, b, c, p);
    }
    AssociatesAt(a, b, c, []);
    SayingSameIsEqual(Merge(Merge(a, b), c), Merge(a, Merge(b, c)));
  }

  lemma AssociatesAt(a: Value, b: Value, c: Value, p: Path)
    requires WellFormed(a) && WellFormed(b) && WellFormed(c)
    ensures WellFormed(Merge(Merge(a, b), c)) && WellFormed(Merge(a, Merge(b, c)))
    ensures Has(Merge(Merge(a, b), c), p) == Has(Merge(a, Merge(b, c)), p)
    ensures Leaf(Merge(Merge(a, b), c), p) == Leaf(Merge(a, Merge(b, c)), p)
  {
    hide Merge, WellFormed, Has, Leaf, Wrap;
    MergeAdds(a, b, p);
    MergeAdds(b, c, p);
    MergeAdds(Merge(a, b), c, p);
    MergeAdds(a, Merge(b, c), p);
    WrapAbsorbs(Leaf(a, p) + Leaf(b, p), Leaf(c, p));
    WrapAbsorbs(Leaf(a, p), Leaf(b, p) + Leaf(c, p));
  }

  lemma MergeUnit(a: Value)
    requires WellFormed(a)
    ensures Merge(a, NOTHING) == a == Merge(NOTHING, a)
  {
    MergeAdds(NOTHING, a, []);
    forall p: Path ensures Has(Merge(NOTHING, a), p) == Has(a, p) && Leaf(Merge(NOTHING, a), p) == Leaf(a, p) {
      MergeAdds(NOTHING, a, p);
      LeafIsI64(a, p);
      WrapAbsorbs(Leaf(a, p), 0);
    }
    SayingSameIsEqual(Merge(NOTHING, a), a);
    assert Merge(a, NOTHING).fields == a.fields;
  }

  // -- all nodes -------------------------------------------------------------------------------------

  ghost function Aggregate(local: Value, remotes: seq<Value>): Value
    decreases |remotes|
  {
    if remotes == [] then local else Merge(Aggregate(local, remotes[..|remotes| - 1]), remotes[|remotes| - 1])
  }

  datatype Reply = MetricsReply(metrics: Value) | OtherReply

  ghost function Reported(replies: seq<Reply>): seq<Value>
    decreases |replies|
  {
    if replies == [] then []
    else
      var last := replies[|replies| - 1];
      Reported(replies[..|replies| - 1]) + if last.MetricsReply? then [last.metrics] else []
  }

  /** `replies` are the peers' answers, or nothing if they could not be asked. */
  method GetAggregatedMetrics(local: Value, replies: Option<seq<Reply>>) returns (merged: Value)
    ensures merged == Aggregate(local, if replies.Some? then Reported(replies.value) else [])
  {
    merged := local;
    if replies == None {
      return;
    }
    var i := 0;
    while i < |replies.value|
      invariant 0 <= i <= |replies.value|
      invariant merged == Aggregate(local, Reported(replies.value[..i]))
    {
      ghost var sofar := Reported(replies.value[..i]);
      assert replies.value[..i + 1][..i] == replies.value[..i];
      match replies.value[i] {
        case MetricsReply(remote) =>
          merged := MergeMetrics(merged, remote);
          assert (sofar + [remote])[..|sofar + [remote]| - 1] == sofar;
        case OtherReply =>
          assert sofar + [] == sofar;
      }
      i := i + 1;
    }
    assert replies.value[..i] == replies.value;
  }

  ghost function Total(vs: seq<Value>, path: Path): int
    decreases |vs|
  {
    if vs == [] then 0 else Total(vs[..|vs| - 1], path) + Leaf(vs[|vs| - 1], path)
  }

  /** At every path the aggregate has the sum over all nodes, as 64-bit integers wrap,
      and it has exactly the paths that some node has. */
  lemma {:induction false} AggregateIsTotal(local: Value, remotes: seq<Value>, path: Path)
    requires WellFormed(local) && forall v :: v in remotes ==> WellFormed(v)
    ensures WellFormed(Aggregate(local, remotes))
    ensures Leaf(Aggregate(local, remotes), path) == Wrap(Leaf(local, path) + Total(remotes, path))
    ensures Has(Aggregate(local, remotes), path) <==> Has(local, path) || exists v :: v in remotes && Has(v, path)
    decreases |remotes|
  {
    if remotes == [] {
      LeafIsI64(local, path);
      WrapAbsorbs(Leaf(local, path), 0);
    } else {
      var rest, last := remotes[..|remotes| - 1], remotes[|remotes| - 1];
      AggregateIsTotal(local, rest, path);
      MergeAdds(Aggregate(local, rest), last, path);
      WrapAbsorbs(Leaf(local, path) + Total(rest, path), Leaf(last, path));
      assert remotes == rest + [last];
    }
  }

  lemma {:induction false} TotalWithout(vs: seq<Value>, i: nat, path: Path)
    requires i < |vs|
    ensures Total(vs, path) == Total(vs[..i] + vs[i + 1..], path) + Leaf(vs[i], path)
    decreases |vs|
  {
    var last := |vs| - 1;
    if i < last {
      TotalWithout(vs[..last], i, path);
      var without := vs[..i] + vs[i + 1..];
      assert without[..|without| - 1] == vs[..last][..i] + vs[..last][i + 1..];
      assert without[|without| - 1] == vs[last];
    } else {
      assert vs[..i] + vs[i + 1..] == vs[..last];
    }
  }

  lemma {:induction false} TotalIgnoresOrder(vs: seq<Value>, ws: seq<Value>, path: Path)
    requires multiset(vs) == multiset(ws)
    ensures Total(vs, path) == Total(ws, path)
    decreases |vs|
  {
    hide Leaf, Total;
    assert |vs| == |multiset(vs)| == |multiset(ws)| == |ws|;
    if vs == [] {
      assert ws == vs;
    } else {
      var last := |vs| - 1;
      assert vs[last] in multiset(ws);
      var i :| 0 <= i < |ws| && ws[i] == vs[last];
      TotalWithout(vs, last, path);
      TotalWithout(ws, i, path);
      OneLess(vs, last);
      OneLess(ws, i);
      TotalIgnoresOrder(vs[..last] + vs[last + 1..], ws[..i] + ws[i + 1..], path);
    }
  }

  lemma OneLess<T>(xs: seq<T>, i: nat)
    requires i < |xs|
    ensures multiset(xs[..i] + xs[i + 1..]) == multiset(xs) - multiset{xs[i]}
  {
    assert xs == xs[..i] + [xs[i]] + xs[i + 1..];
  }

  /** The order in which the peers answer makes no difference. */
  lemma AggregateIgnoresOrder(local: Value, vs: seq<Value>, ws: seq<Value>)
    requires WellFormed(local) && (forall v :: v in vs ==> WellFormed(v)) && multiset(vs) == multiset(ws)
    ensures Aggregate(local, vs) == Aggregate(local, ws)
  {
    assert forall w :: w in ws ==> w in multiset(ws);
    assert forall v :: v in vs <==> v in ws by { assert forall v :: v in vs <==> v in multiset(vs); }
    forall p: Path
      ensures Has(Aggregate(local, vs), p) == Has(Aggregate(local, ws), p)
      ensures Leaf(Aggregate(local, vs), p) == Leaf(Aggregate(local, ws), p)
    {
      AggregateIsTotal(local, vs, p);
      AggregateIsTotal(local, ws, p);
      TotalIgnoresOrder(vs, ws, p);
    }
    AggregateIsTotal(local, vs, []);
    AggregateIsTotal(local, ws, []);
    SayingSameIsEqual(Aggregate(local, vs), Aggregate(local, ws));
  }

  // -- exactly when the order of two trees makes no difference -------------------------------------

  /** Survives a merge into the empty object: an object all through, of numbers, with
      nothing else but objects of the same kind under "apps". */
  ghost predicate Survives(v: Value)
    decreases v
  {
    && v.Object?
    && forall k :: k in v.fields ==> if k == "apps" then SurvivesAsApps(v.fields[k]) else IsNumber(v.fields[k])
  }

  ghost predicate SurvivesAsApps(v: Value)
    decreases v
  {
    v.Object? && forall a :: a in v.fields ==> Survives(v.fields[a])
  }

  lemma {:induction false} SurvivesIff(v: Value)
    ensures Merge(NOTHING, v) == v <==> Survives(v)
    decreases v, 1
  {
    if v.Object? {
      forall k ensures MergedField(NOTHING, v, k) == Field(v.fields, k) <==> (k in v.fields ==>
                 if k == "apps" then SurvivesAsApps(v.fields[k]) else IsNumber(v.fields[k])) {
        MergeHasField(NOTHING, v, k);
        if k in v.fields && k == "apps" {
          AppsSurviveIff(v.fields[k]);
        }
      }
      EqualByFields(Merge(NOTHING, v), v);
      forall k { MergeHasField(NOTHING, v, k); }
    }
  }

  lemma {:induction false} AppsSurviveIff(v: Value)
    ensures MergeApps(NOTHING, v) == v <==> SurvivesAsApps(v)
    decreases v, 0
  {
    if v.Object? {
      forall a | a in v.fields ensures MergeApps(NOTHING, v).fields[a] == v.fields[a] <==> Survives(v.fields[a]) {
        SurvivesIff(v.fields[a]);
      }
      assert MergeApps(NOTHING, v).fields.Keys == v.fields.Keys;
      assert MergeApps(NOTHING, v) == v <==> MergeApps(NOTHING, v).fields == v.fields;
    }
  }

  /** What a merge has at `k`. */
  ghost function MergedField(l: Value, r: Value, k: string): Option<Value>
    requires l.Object? && r.Object?
  {
    if k in r.fields then MergeField(k, Field(l.fields, k), r.fields[k]) else Field(l.fields, k)
  }

  lemma MergeHasField(l: Value, r: Value, k: string)
    requires l.Object? && r.Object?
    ensures Merge(l, r).Object? && Field(Merge(l, r).fields, k) == MergedField(l, r, k)
  {
  }

  lemma EqualByFields(a: Value, b: Value)
    requires a.Object? && b.Object?
    ensures a == b <==> forall k :: Field(a.fields, k) == Field(b.fields, k)
  {
    if forall k :: Field(a.fields, k) == Field(b.fields, k) {
      SameFields(a.fields, b.fields);
    }
  }

  /** Shared fields are equal or both within the signed range, the others survive, and
      the same holds of all apps. */
  ghost predicate Interchange(a: Value, b: Value)
    decreases a, 1
  {
    if !a.Object? || !b.Object? then a == b
    else forall k :: k in a.fields || k in b.fields ==> FieldsInterchange(a, b, k)
  }

  ghost predicate FieldsInterchange(a: Value, b: Value, k: string)
    requires a.Object? && b.Object? && (k in a.fields || k in b.fields)
    decreases a, 0
  {
    if k in a.fields && k in b.fields then
      if k == "apps" then AppsInterchange(a.fields[k], b.fields[k])
      else a.fields[k] == b.fields[k] || (IsI64(a.fields[k]) && IsI64(b.fields[k]))
    else
      var only := if k in a.fields then a.fields[k] else b.fields[k];
      if k == "apps" then SurvivesAsApps(only) else IsNumber(only)
  }

  ghost predicate AppsInterchange(a: Value, b: Value)
    decreases a, 0
  {
    if !a.Object? || !b.Object? then a == b
    else
      forall p :: p in a.fields || p in b.fields ==>
        if p in a.fields && p in b.fields then Interchange(a.fields[p], b.fields[p])
        else Survives(if p in a.fields then a.fields[p] else b.fields[p])
  }

  /** For any two JSON values: merging them either way round is the same if and only if
      at every shared field they agree or both have a signed 64-bit integer, at every
      other field there is a number, and the same holds of their apps. */
  lemma {:induction false} MergeCommutesIff(a: Value, b: Value)
    ensures Merge(a, b) == Merge(b, a) <==> Interchange(a, b)
    decreases a, 2
  {
    if a.Object? && b.Object? {
      var ab, ba := Merge(a, b), Merge(b, a);
      forall k ensures Field(ab.fields, k) == Field(ba.fields, k) <==>
                         (k in a.fields || k in b.fields ==> FieldsInterchange(a, b, k)) {
        FieldCommutesIff(a, b, k);
      }
      EqualByFields(ab, ba);
    }
  }

  lemma FieldCommutesIff(a: Value, b: Value, k: string)
    requires a.Object? && b.Object?
    ensures Field(Merge(a, b).fields, k) == Field(Merge(b, a).fields, k) <==>
              (k in a.fields || k in b.fields ==> FieldsInterchange(a, b, k))
    decreases a, 1
  {
    MergeHasField(a, b, k);
    MergeHasField(b, a, k);
    if k == "apps" && k in a.fields && k in b.fields {
      AppsCommuteIff(a.fields[k], b.fields[k]);
    } else if k == "apps" && k in a.fields {
      AppsSurviveIff(a.fields[k]);
    } else if k == "apps" && k in b.fields {
      AppsSurviveIff(b.fields[k]);
    }
  }

  lemma {:induction false} AppsCommuteIff(a: Value, b: Value)
    ensures MergeApps(a, b) == MergeApps(b, a) <==> AppsInterchange(a, b)
    decreases a, 0
  {
    if a.Object? && b.Object? {
      var ab, ba := MergeApps(a, b), MergeApps(b, a);
      forall p | p in a.fields || p in b.fields
        ensures ab.fields[p] == ba.fields[p] <==>
                  if p in a.fields && p in b.fields then Interchange(a.fields[p], b.fields[p])
                  else Survives(if p in a.fields then a.fields[p] else b.fields[p])
      {
        if p in a.fields && p in b.fields {
          MergeCommutesIff(a.fields[p], b.fields[p]);
        } else {
          SurvivesIff(if p in a.fields then a.fields[p] else b.fields[p]);
        }
      }
      assert ab.fields.Keys == ba.fields.Keys;
      assert ab == ba <==> ab.fields == ba.fields;
    }
  }

  /** Integers a JSON document can hold: 64 bits, signed or not. */
  predicate IsJsonInt(v: Value) { v.Int? && I64_MIN <= v.n < TWO_64 }

  /** A field both sides have as an integer becomes their wrapped sum if and only if both
      are within the signed range; otherwise it stays as it was. */
  lemma SharedFieldAddsIff(a: Value, b: Value, k: string)
    requires a.Object? && b.Object? && k != "apps" && k in a.fields && k in b.fields
    requires IsJsonInt(a.fields[k]) && IsJsonInt(b.fields[k])
    ensures k in Merge(a, b).fields
    ensures var x, y := a.fields[k], b.fields[k];
            Merge(a, b).fields[k] == Int(Wrap(x.n + y.n)) <==> IsI64(x) && IsI64(y)
    ensures !(IsI64(a.fields[k]) && IsI64(b.fields[k])) ==> Merge(a, b).fields[k] == a.fields[k]
  {
    hide Wrap;
    MergeHasField(a, b, k);
    WrapAbsorbs(a.fields[k].n + b.fields[k].n, 0);
    if !IsI64(b.fields[k]) {
      BigOneMoves(a.fields[k].n, b.fields[k].n);
    }
  }

  lemma BigOneMoves(n: int, big: int)
    requires I64_MAX < big < TWO_64
    ensures Wrap(n + big) != n
  {
    var q := (n + big - I64_MIN) / TWO_64;
    assert Wrap(n + big) == n + big - q * TWO_64;
    if q <= 0 {
      assert q * TWO_64 <= 0;
    } else {
      assert q * TWO_64 >= TWO_64;
    }
  }

  /** So a counter of 2^63 or more is kept or lost, whatever the other side counted. */
  lemma BigCountersDoNotAdd(k: string, n: int, m: int)
    requires k != "apps" && I64_MAX < n < TWO_64 && I64_MIN <= m < TWO_64 && m != n
    ensures var big, other := Object(map[k := Int(n)]), Object(map[k := Int(m)]);
            && Merge(big, other) != Merge(other, big)
            && Field(Merge(big, other).fields, k) == Some(Int(n)) && Field(Merge(other, big).fields, k) == Some(Int(m))
  {
    var big, other := Object(map[k := Int(n)]), Object(map[k := Int(m)]);
    assert !FieldsInterchange(big, other, k);
    MergeCommutesIff(big, other);
    SharedFieldAddsIff(big, other, k);
    SharedFieldAddsIff(other, big, k);
  }
}
