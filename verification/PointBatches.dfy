/** The storage kernel's side of an import: an abstract durable map from IDs to point contents that
    converts each value it is given for a field, and the effect of a batch of complete upserts. */
module PointBatches {
  import opened Basics
  import opened PointSchema
  import opened PointRows

  datatype Target = DefaultVector | DefaultSparse | Named(name: string)

  /** The kernel: the stored form of a value for a field, or None when it rejects the value, and the
      same for a payload. */
  datatype PointKernel = PointKernel(
    stored: (Target, Option<VectorField>, Value) -> Option<Value>,
    storedFields: seq<Payload> -> Option<seq<Payload>>)

  // ---------------------------------------------------------------- import: mutations to the kernel

  /** One entry of `to_kernel`'s update list. */
  datatype Update = Update(target: Target, value: Option<Value>)

  predicate Mentions(m: PointMutation, u: Update) {
    match u.target
    case DefaultVector => m.vector == (if u.value.None? then Remove else Put(u.value.value))
    case DefaultSparse => m.sparse == (if u.value.None? then Remove else Put(u.value.value))
    case Named(n) => n in m.vectors && m.vectors[n] == u.value
  }

  /** The list holds exactly the mutation's settings, each once, in any order. */
  ghost predicate Lists(updates: seq<Update>, m: PointMutation) {
    && (forall u :: u in updates <==> Mentions(m, u))
    && (forall i, j :: 0 <= i < j < |updates| ==> updates[i].target != updates[j].target)
  }

  /** `PointMutation.to_kernel`: omitted settings produce no update. */
  method ToKernel(m: PointMutation) returns (updates: seq<Update>)
    ensures Lists(updates, m)
  {
    updates := [];
    if m.vector != Unset { updates := updates + [Update(DefaultVector, if m.vector.Remove? then None else Some(m.vector.value))]; }
    if m.sparse != Unset { updates := updates + [Update(DefaultSparse, if m.sparse.Remove? then None else Some(m.sparse.value))]; }
    var todo := m.vectors.Keys;
    while todo != {}
      invariant todo <= m.vectors.Keys
      invariant forall u :: u in updates <==> Mentions(m, u) && !(u.target.Named? && u.target.name in todo)
      invariant forall i, j :: 0 <= i < j < |updates| ==> updates[i].target != updates[j].target
    {
      var name :| name in todo;
      var u := Update(Named(name), m.vectors[name]);
      assert forall i :: 0 <= i < |updates| ==> updates[i] in updates;
      updates, todo := updates + [u], todo - {name};
    }
  }

  // ---------------------------------------------------------------- the kernel's point map

  function SpecAt(schema: Schema, t: Target): Option<VectorField> {
    if t.Named? && t.name in schema then Some(schema[t.name].Bare()) else None
  }

  /** The stored form of an update's value; None is a removal. Err: unknown field or bad value. */
  function StoredValue(kernel: PointKernel, schema: Schema, u: Update): Result<Option<Value>> {
    if u.target.Named? && u.target.name !in schema then Err
    else if u.value.None? then Ok(None)
    else
      var v := kernel.stored(u.target, SpecAt(schema, u.target), u.value.value);
      if v.None? then Err else Ok(v)
  }

  function At(c: Content, t: Target): Option<Value> {
    match t
    case DefaultVector => c.vector
    case DefaultSparse => c.sparse
    case Named(n) => if n in c.vectors then Some(c.vectors[n]) else None
  }

  function SetAt(c: Content, t: Target, v: Option<Value>): (r: Content)
    ensures r.fields == c.fields && At(r, t) == v && forall s :: s != t ==> At(r, s) == At(c, s)
  {
    match t
    case DefaultVector => c.(vector := v)
    case DefaultSparse => c.(sparse := v)
    case Named(n) => c.(vectors := if v.None? then c.vectors - {n} else c.vectors[n := v.value])
  }

  function ApplyUpdates(kernel: PointKernel, schema: Schema, c: Content, updates: seq<Update>): Result<Content>
    decreases |updates|
  {
    if updates == [] then Ok(c)
    else
      var before := ApplyUpdates(kernel, schema, c, updates[..|updates| - 1]);
      var u := updates[|updates| - 1];
      var v := StoredValue(kernel, schema, u);
      if before.Err? || v.Err? then Err else Ok(SetAt(before.value, u.target, v.value))
  }

  /** An upsert changes what it mentions and keeps the rest. */
  function ApplyUpsert(kernel: PointKernel, schema: Schema, points: map<int, Content>, id: int, updates: seq<Update>, fields: Option<seq<Payload>>): Result<map<int, Content>> {
    var c := ApplyUpdates(kernel, schema, if id in points then points[id] else NoContent, updates);
    if c.Err? then Err
    else if fields.None? then Ok(points[id := c.value])
    else
      var f := kernel.storedFields(fields.value);
      if f.None? then Err else Ok(points[id := c.value.(fields := f.value)])
  }

  /** A batch is applied in order, all or nothing. */
  ghost function ApplyBatch(kernel: PointKernel, schema: Schema, points: map<int, Content>, ms: seq<PointMutation>, lists: seq<seq<Update>>): Result<map<int, Content>>
    requires |ms| == |lists|
    decreases |ms|
  {
    if ms == [] then Ok(points)
    else
      var n := |ms| - 1;
      var before := ApplyBatch(kernel, schema, points, ms[..n], lists[..n]);
      if before.Err? then Err else ApplyUpsert(kernel, schema, before.value, ms[n].id, lists[n], ms[n].fields)
  }

  // ---------------------------------------------------------------- complete mutations overwrite

  predicate Complete(schema: Schema, m: PointMutation) {
    m.vector != Unset && m.sparse != Unset && m.vectors.Keys == schema.Keys && m.fields.Some?
  }

  /** `c` is exactly what the mutation sets, in stored form. */
  ghost predicate IsStored(kernel: PointKernel, schema: Schema, m: PointMutation, c: Content) {
    && (forall u :: Mentions(m, u) ==> StoredValue(kernel, schema, u) == Ok(At(c, u.target)))
    && c.vectors.Keys <= schema.Keys
    && m.fields.Some? && kernel.storedFields(m.fields.value) == Some(c.fields)
  }

  lemma {:induction false} UpdatesOutcome(kernel: PointKernel, schema: Schema, c: Content, updates: seq<Update>)
    requires forall i, j :: 0 <= i < j < |updates| ==> updates[i].target != updates[j].target
    ensures var r := ApplyUpdates(kernel, schema, c, updates);
      && (r.Ok? <==> forall i :: 0 <= i < |updates| ==> StoredValue(kernel, schema, updates[i]).Ok?)
      && (r.Ok? ==> forall i :: 0 <= i < |updates| ==> StoredValue(kernel, schema, updates[i]) == Ok(At(r.value, updates[i].target)))
      && (r.Ok? ==> forall t :: (forall i :: 0 <= i < |updates| ==> updates[i].target != t) ==> At(r.value, t) == At(c, t))
    decreases |updates|
  {
    hide StoredValue, At;
    if updates != [] {
      var n := |updates| - 1;
      UpdatesOutcome(kernel, schema, c, updates[..n]);
    }
  }

  /** Two contents that agree field by field are equal. */
  lemma SameAt(c: Content, d: Content)
    requires c.fields == d.fields && forall t :: At(c, t) == At(d, t)
    ensures c == d
  {
    assert At(c, DefaultVector) == At(d, DefaultVector) && At(c, DefaultSparse) == At(d, DefaultSparse);
    forall n ensures (n in c.vectors <==> n in d.vectors) && (n in c.vectors && n in d.vectors ==> c.vectors[n] == d.vectors[n]) {
      assert At(c, Named(n)) == At(d, Named(n));
    }
  }

  function SettingAt(m: PointMutation, t: Target): Update
    requires t.Named? ==> t.name in m.vectors
  {
    match t
    case DefaultVector => Update(t, if m.vector.Put? then Some(m.vector.value) else None)
    case DefaultSparse => Update(t, if m.sparse.Put? then Some(m.sparse.value) else None)
    case Named(n) => Update(t, m.vectors[n])
  }

  lemma StoredOnce(kernel: PointKernel, schema: Schema, m: PointMutation, c: Content, d: Content)
    requires Complete(schema, m) && IsStored(kernel, schema, m, c) && IsStored(kernel, schema, m, d)
    ensures c == d
  {
    forall t ensures At(c, t) == At(d, t) {
      if !t.Named? || t.name in schema { assert Mentions(m, SettingAt(m, t)); }
    }
    SameAt(c, d);
  }

  /** A complete upsert does not depend on what the point held before. */
  lemma UpsertReplaces(kernel: PointKernel, schema: Schema, points: map<int, Content>, m: PointMutation, updates: seq<Update>)
    requires Complete(schema, m) && Lists(updates, m)
    requires m.id in points ==> points[m.id].vectors.Keys <= schema.Keys
    ensures var r := ApplyUpsert(kernel, schema, points, m.id, updates, m.fields);
      && (r.Ok? ==> m.id in r.value && IsStored(kernel, schema, m, r.value[m.id]) && r.value == points[m.id := r.value[m.id]])
      && (r.Err? ==> forall c :: !IsStored(kernel, schema, m, c))
  {
    hide StoredValue, ApplyUpdates;
    var prior := if m.id in points then points[m.id] else NoContent;
    var r := ApplyUpdates(kernel, schema, prior, updates);
    UpdatesOutcome(kernel, schema, prior, updates);
    if r.Err? {
      var i :| 0 <= i < |updates| && StoredValue(kernel, schema, updates[i]).Err?;
      assert Mentions(m, updates[i]);
    } else {
      forall u | Mentions(m, u) ensures StoredValue(kernel, schema, u) == Ok(At(r.value, u.target)) {
        assert u in updates;
      }
      forall n | n in r.value.vectors ensures n in schema {
        assert forall i :: 0 <= i < |updates| ==> Mentions(m, updates[i]);
        assert n !in schema ==> At(r.value, Named(n)) == At(prior, Named(n));
      }
    }
  }

  // ---------------------------------------------------------------- whole batches

  ghost predicate StoredAll(kernel: PointKernel, schema: Schema, ms: seq<PointMutation>, cs: seq<Content>) {
    |cs| == |ms| && forall i :: 0 <= i < |ms| ==> IsStored(kernel, schema, ms[i], cs[i])
  }

  /** `after` is `points` with the mutated IDs replaced by `cs` and every other ID untouched. */
  ghost predicate Replaced(points: map<int, Content>, ms: seq<PointMutation>, cs: seq<Content>, after: map<int, Content>)
    requires |ms| == |cs|
  {
    && (forall i :: 0 <= i < |ms| ==> ms[i].id in after && after[ms[i].id] == cs[i])
    && (forall id :: (forall i :: 0 <= i < |ms| ==> ms[i].id != id) ==> (id in after <==> id in points) && (id in after && id in points ==> after[id] == points[id]))
  }

  predicate InCatalog(schema: Schema, points: map<int, Content>) {
    forall id :: id in points ==> points[id].vectors.Keys <= schema.Keys
  }

  ghost predicate ListsAll(lists: seq<seq<Update>>, ms: seq<PointMutation>) {
    |lists| == |ms| && forall i :: 0 <= i < |ms| ==> Lists(lists[i], ms[i])
  }

  predicate CompleteBatch(schema: Schema, ms: seq<PointMutation>) {
    && (forall i :: 0 <= i < |ms| ==> Complete(schema, ms[i]))
    && (forall i, j :: 0 <= i < j < |ms| ==> ms[i].id != ms[j].id)
  }

  lemma {:induction false} BatchReplaces(kernel: PointKernel, schema: Schema, points: map<int, Content>, ms: seq<PointMutation>,
                                         lists: seq<seq<Update>>) returns (cs: seq<Content>)
    requires InCatalog(schema, points) && CompleteBatch(schema, ms) && ListsAll(lists, ms)
    ensures var r := ApplyBatch(kernel, schema, points, ms, lists);
      && (r.Ok? ==> StoredAll(kernel, schema, ms, cs) && Replaced(points, ms, cs, r.value) && InCatalog(schema, r.value))
      && (r.Err? ==> forall ds :: !StoredAll(kernel, schema, ms, ds))
    decreases |ms|
  {
    hide Complete, Lists, ApplyUpsert, IsStored, Replaced;
    cs := [];
    if ms != [] {
      var n := |ms| - 1;
      cs := BatchReplaces(kernel, schema, points, ms[..n], lists[..n]);
      var before := ApplyBatch(kernel, schema, points, ms[..n], lists[..n]);
      if before.Err? {
        forall ds ensures !StoredAll(kernel, schema, ms, ds) {
          if |ds| == |ms| { assert !StoredAll(kernel, schema, ms[..n], ds[..n]); }
        }
      } else {
        UpsertReplaces(kernel, schema, before.value, ms[n], lists[n]);
        var r := ApplyUpsert(kernel, schema, before.value, ms[n].id, lists[n], ms[n].fields);
        if r.Ok? {
          StoredInCatalog(kernel, schema, ms[n], r.value[ms[n].id]);
          ReplacedExtends(points, ms, cs, before.value, r.value[ms[n].id]);
          cs := cs + [r.value[ms[n].id]];
        }
      }
    } else {
      EmptyBatch(kernel, schema, points);
    }
  }

  lemma ReplacedExtends(points: map<int, Content>, ms: seq<PointMutation>, cs: seq<Content>, before: map<int, Content>, c: Content)
    requires |ms| == |cs| + 1 && Replaced(points, ms[..|cs|], cs, before)
    requires forall i, j :: 0 <= i < j < |ms| ==> ms[i].id != ms[j].id
    ensures Replaced(points, ms, cs + [c], before[ms[|cs|].id := c])
  {
    var n, after, ds := |cs|, before[ms[|cs|].id := c], cs + [c];
    assert forall i :: 0 <= i < n ==> ms[..n][i] == ms[i];
    forall i | 0 <= i < |ms| ensures ms[i].id in after && after[ms[i].id] == ds[i] {
      if i < n { assert ms[..n][i].id in before; }
    }
  }

  lemma StoredInCatalog(kernel: PointKernel, schema: Schema, m: PointMutation, c: Content)
    requires IsStored(kernel, schema, m, c)
    ensures c.vectors.Keys <= schema.Keys
  {
  }

  lemma EmptyBatch(kernel: PointKernel, schema: Schema, points: map<int, Content>)
    ensures StoredAll(kernel, schema, [], []) && Replaced(points, [], [], points)
  {
  }

  lemma {:induction false} BatchStopsAt(kernel: PointKernel, schema: Schema, points: map<int, Content>, ms: seq<PointMutation>, lists: seq<seq<Update>>, n: nat)
    requires n <= |ms| == |lists| && ApplyBatch(kernel, schema, points, ms[..n], lists[..n]).Err?
    ensures ApplyBatch(kernel, schema, points, ms, lists).Err?
    decreases |ms|
  {
    hide ApplyUpsert;
    if n < |ms| {
      var k := |ms| - 1;
      assert ms[..k][..n] == ms[..n] && lists[..k][..n] == lists[..n];
      BatchStopsAt(kernel, schema, points, ms[..k], lists[..k], n);
    } else {
      assert ms[..n] == ms && lists[..n] == lists;
    }
  }
}
