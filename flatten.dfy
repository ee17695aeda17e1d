/** The recursive flattener of lib/utils/flattenCart.ts. `flatten` walks a
    nested value depth-first and assigns every non-container value it meets
    into one shared result record under a dot-joined path. The walk is
    specified by the function Leaves (the assignments, in the order they are
    made) and the record by WriteAll (those assignments applied to a record);
    the Flattener class does the walk in place, as the source does. */
module Flatten {
  import opened Strings
  import opened Records

  /** A value as flatten inspects it: `null` and `undefined` are both Null. */
  datatype Value =
    | Null
    | Str(s: string)
    | Num(n: real)
    | Arr(elems: seq<Value>)
    | Obj(fields: seq<(string, Value)>)

  /** One assignment `result[path] = value`. */
  type Entry = (string, Value)

  /** `typeof x === "object" && x !== null`: arrays and plain objects. */
  predicate IsNested(v: Value)
  {
    v.Arr? || v.Obj?
  }

  /** The path of a child: `prefix ? prefix + "." + segment : segment`. */
  function Join(prefix: string, segment: string): string
  {
    if prefix == "" then segment else prefix + "." + segment
  }

  /** The assignments `flatten(v, prefix)` makes, in order. A Null is skipped
      and a scalar is written at prefix itself; both only happen for the value
      flatten is called on, since children are handled by Child. */
  function Leaves(v: Value, prefix: string): seq<Entry>
    decreases v, 1, 0
  {
    match v
    case Null => []
    case Str(_) => [(prefix, v)]
    case Num(_) => [(prefix, v)]
    case Arr(elems) => ElemLeaves(v, prefix, |elems|)
    case Obj(fields) => FieldLeaves(v, prefix, |fields|)
  }

  /** One child under its key: a nested child is recursed into, anything
      else (a Null included) is written at the key. */
  function Child(item: Value, key: string): seq<Entry>
    decreases item, 2, 0
  {
    if IsNested(item) then Leaves(item, key) else [(key, item)]
  }

  /** The assignments made for the first n elements of an array. */
  function ElemLeaves(v: Value, prefix: string, n: nat): seq<Entry>
    requires v.Arr? && n <= |v.elems|
    decreases v, 0, n
  {
    if n == 0 then []
    else ElemLeaves(v, prefix, n - 1) + Child(v.elems[n - 1], Join(prefix, NatToString(n - 1)))
  }

  /** The assignments made for the first n entries of an object. */
  function FieldLeaves(v: Value, prefix: string, n: nat): seq<Entry>
    requires v.Obj? && n <= |v.fields|
    decreases v, 0, n
  {
    if n == 0 then []
    else FieldLeaves(v, prefix, n - 1) + Child(v.fields[n - 1].1, Join(prefix, v.fields[n - 1].0))
  }

  /** A record after a run of assignments into it. */
  function WriteAll(rec: seq<Entry>, writes: seq<Entry>): seq<Entry>
  {
    if writes == [] then rec
    else
      var last := writes[|writes| - 1];
      Put(WriteAll(rec, writes[..|writes| - 1]), last.0, last.1)
  }

  /** What `flattenCart(cart)` returns: a record that never holds a path
      twice. */
  function Flattened(cart: Value): (r: seq<Entry>)
    ensures DistinctKeys(r)
  {
    WriteAllKeepsDistinct([], Leaves(cart, ""));
    WriteAll([], Leaves(cart, ""))
  }

  /** The closure state of flattenCart: the shared `result` record. */
  class Flattener {
    var result: seq<Entry>

    constructor ()
      ensures result == []
    {
      result := [];
    }

    /** The inner `flatten(obj, prefix)`. */
    method Flatten(obj: Value, prefix: string)
      modifies this
      ensures result == WriteAll(old(result), Leaves(obj, prefix))
      decreases obj, 1
    {
      match obj {
        case Null =>
        case Arr(_) =>
          FlattenArray(obj, prefix);
        case Obj(_) =>
          FlattenObject(obj, prefix);
        case _ =>
          result := Put(result, prefix, obj);
      }
    }

    /** The `obj.forEach((item, index) => ...)` branch of flatten. */
    method FlattenArray(obj: Value, prefix: string)
      requires obj.Arr?
      modifies this
      ensures result == WriteAll(old(result), Leaves(obj, prefix))
      decreases obj, 0
    {
      var elems := obj.elems;
      var index := 0;
      while index < |elems|
        invariant 0 <= index <= |elems|
        invariant result == WriteAll(old(result), ElemLeaves(obj, prefix, index))
      {
        var item := elems[index];
        var key := Join(prefix, NatToString(index));
        ghost var before := result;
        if IsNested(item) {
          Flatten(item, key);
        } else {
          result := Put(result, key, item);
          WriteOne(before, key, item);
        }
        assert ElemLeaves(obj, prefix, index + 1) == ElemLeaves(obj, prefix, index) + Child(item, key);
        WriteAllConcat(old(result), ElemLeaves(obj, prefix, index), Child(item, key));
        index := index + 1;
      }
    }

    /** The `Object.entries(obj).forEach(([key, value]) => ...)` branch. */
    method FlattenObject(obj: Value, prefix: string)
      requires obj.Obj?
      modifies this
      ensures result == WriteAll(old(result), Leaves(obj, prefix))
      decreases obj, 0
    {
      var fields := obj.fields;
      var index := 0;
      while index < |fields|
        invariant 0 <= index <= |fields|
        invariant result == WriteAll(old(result), FieldLeaves(obj, prefix, index))
      {
        var key, value := fields[index].0, fields[index].1;
        var newKey := Join(prefix, key);
        ghost var before := result;
        if IsNested(value) {
          Flatten(value, newKey);
        } else {
          result := Put(result, newKey, value);
          WriteOne(before, newKey, value);
        }
        assert FieldLeaves(obj, prefix, index + 1) == FieldLeaves(obj, prefix, index) + Child(value, newKey);
        WriteAllConcat(old(result), FieldLeaves(obj, prefix, index), Child(value, newKey));
        index := index + 1;
      }
    }
  }

  /** `flattenCart(cart)`. Every path occurs once; when no object key is empty,
      contains a dot or repeats, the record is exactly the depth-first list of
      leaves, one entry per leaf. */
  method FlattenCart(cart: Value) returns (r: seq<Entry>)
    ensures r == Flattened(cart)
    ensures DistinctKeys(r)
    ensures SimpleKeys(cart) ==> r == Leaves(cart, "")
  {
    var flattener := new Flattener();
    flattener.Flatten(cart, "");
    r := flattener.result;
    WriteAllKeepsDistinct([], Leaves(cart, ""));
    if SimpleKeys(cart) {
      FlattenedSimple(cart);
    }
  }

  // ---------------------------------------------------------------------
  // The record

  /** Running two batches of assignments is running their concatenation. */
  lemma {:induction false} WriteAllConcat(rec: seq<Entry>, a: seq<Entry>, b: seq<Entry>)
    ensures WriteAll(rec, a + b) == WriteAll(WriteAll(rec, a), b)
  {
    if b == [] {
      assert a + b == a;
    } else {
      assert (a + b)[..|a + b| - 1] == a + b[..|b| - 1];
      assert (a + b)[|a + b| - 1] == b[|b| - 1];
      WriteAllConcat(rec, a, b[..|b| - 1]);
    }
  }

  /** A single assignment is one Put. */
  lemma WriteOne(rec: seq<Entry>, key: string, val: Value)
    ensures WriteAll(rec, [(key, val)]) == Put(rec, key, val)
  {
    assert [(key, val)][..0] == [];
  }

  /** The result record never holds a path twice. */
  lemma {:induction false} WriteAllKeepsDistinct(rec: seq<Entry>, writes: seq<Entry>)
    requires DistinctKeys(rec)
    ensures DistinctKeys(WriteAll(rec, writes))
  {
    if writes != [] {
      var last := writes[|writes| - 1];
      WriteAllKeepsDistinct(rec, writes[..|writes| - 1]);
      PutKeepsDistinct(WriteAll(rec, writes[..|writes| - 1]), last.0, last.1);
    }
  }

  /** The value of the last assignment to path in a batch, if any. */
  function LastWrite(writes: seq<Entry>, path: string): Option<Value>
  {
    if writes == [] then None
    else if writes[|writes| - 1].0 == path then Some(writes[|writes| - 1].1)
    else LastWrite(writes[..|writes| - 1], path)
  }

  /** The value at a path is the one written there last (a later write to a
      path overwrites an earlier one); a path never written keeps its value. */
  lemma {:induction false} WriteAllLastWins(rec: seq<Entry>, writes: seq<Entry>, path: string)
    ensures Lookup(WriteAll(rec, writes), path) ==
      if LastWrite(writes, path).Some? then LastWrite(writes, path) else Lookup(rec, path)
  {
    if writes != [] {
      WriteAllLastWins(rec, writes[..|writes| - 1], path);
    }
  }

  /** Assignments to fresh, distinct paths only append. */
  lemma {:induction false} WriteAllFresh(rec: seq<Entry>, writes: seq<Entry>)
    requires DistinctKeys(rec + writes)
    ensures WriteAll(rec, writes) == rec + writes
  {
    if writes != [] {
      var init := writes[..|writes| - 1];
      var last := writes[|writes| - 1];
      assert (rec + writes)[..|rec + init|] == rec + init;
      assert DistinctKeys(rec + init);
      WriteAllFresh(rec, init);
      assert !HasKey(rec + init, last.0) by {
        forall i | 0 <= i < |rec + init| ensures (rec + init)[i].0 != last.0 {
          assert (rec + init)[i] == (rec + writes)[i];
          assert last == (rec + writes)[|rec + writes| - 1];
        }
      }
      assert rec + init + [last] == rec + writes;
    } else {
      assert rec + writes == rec;
    }
  }

  // ---------------------------------------------------------------------
  // Paths

  /** path is key itself or lies below it. */
  predicate Extends(path: string, key: string)
  {
    path == key || key + "." <= path
  }

  /** An object key that the path syntax can represent faithfully. */
  predicate PlainSegment(segment: string)
  {
    segment != "" && '.' !in segment
  }

  /** Every object key in v, at any depth, is plain, and no object repeats a
      key (a JavaScript object never does). */
  predicate SimpleKeys(v: Value)
    decreases v
  {
    match v
    case Arr(elems) => forall i | 0 <= i < |elems| :: SimpleKeys(elems[i])
    case Obj(fields) =>
      && (forall i | 0 <= i < |fields| :: PlainSegment(fields[i].0) && SimpleKeys(fields[i].1))
      && (forall i, j | 0 <= i < j < |fields| :: fields[i].0 != fields[j].0)
    case _ => true
  }

  /** Each assignment of an array's first n elements comes from one of them. */
  lemma {:induction false} ElemOrigin(v: Value, prefix: string, n: nat, e: Entry) returns (i: nat)
    requires v.Arr? && n <= |v.elems| && e in ElemLeaves(v, prefix, n)
    ensures i < n && e in Child(v.elems[i], Join(prefix, NatToString(i)))
  {
    if e in ElemLeaves(v, prefix, n - 1) {
      i := ElemOrigin(v, prefix, n - 1, e);
    } else {
      i := n - 1;
    }
  }

  /** Each assignment of an object's first n entries comes from one of them. */
  lemma {:induction false} FieldOrigin(v: Value, prefix: string, n: nat, e: Entry) returns (i: nat)
    requires v.Obj? && n <= |v.fields| && e in FieldLeaves(v, prefix, n)
    ensures i < n && e in Child(v.fields[i].1, Join(prefix, v.fields[i].0))
  {
    if e in FieldLeaves(v, prefix, n - 1) {
      i := FieldOrigin(v, prefix, n - 1, e);
    } else {
      i := n - 1;
    }
  }

  /** Only non-containers are ever written, and everything written below a
      non-empty prefix lands at the prefix (a scalar) or under `prefix.`
      (a container). */
  lemma {:induction false} LeavesShape(v: Value, prefix: string, e: Entry)
    requires e in Leaves(v, prefix)
    ensures !IsNested(e.1)
    ensures prefix != "" ==> if IsNested(v) then prefix + "." <= e.0 else e.0 == prefix
    decreases v, 1
  {
    match v
    case Arr(elems) =>
      var i := ElemOrigin(v, prefix, |elems|, e);
      var key := Join(prefix, NatToString(i));
      ChildShape(elems[i], key, e);
      if prefix != "" {
        assert key == prefix + "." + NatToString(i);
        assert prefix + "." <= key;
      }
    case Obj(fields) =>
      var i := FieldOrigin(v, prefix, |fields|, e);
      var key := Join(prefix, fields[i].0);
      ChildShape(fields[i].1, key, e);
      if prefix != "" {
        assert key == prefix + "." + fields[i].0;
        assert prefix + "." <= key;
      }
    case _ =>
  }

  /** What one child writes lies at or under its key. */
  lemma {:induction false} ChildShape(item: Value, key: string, e: Entry)
    requires e in Child(item, key)
    ensures !IsNested(e.1)
    ensures key != "" ==> Extends(e.0, key)
    decreases item, 2
  {
    if IsNested(item) {
      LeavesShape(item, key, e);
    }
  }

  /** A path at or under a key that starts with P lies, past P, at or under
      the rest of the key. */
  lemma DropPrefix(p: string, prefix: string, key: string)
    requires Extends(p, prefix + key)
    ensures prefix <= p && Extends(p[|prefix|..], key)
  {
    if p != prefix + key {
      assert p[..|prefix + key + "."|] == prefix + key + ".";
      assert p[|prefix|..][..|key + "."|] == key + ".";
    }
  }

  /** Two dot-free segments that a path both extends are equal. */
  lemma SameSegment(q: string, s1: string, s2: string)
    requires '.' !in s1 && '.' !in s2
    requires Extends(q, s1) && Extends(q, s2)
    ensures s1 == s2
  {
    DotAfter(q, s1, s2);
    DotAfter(q, s2, s1);
    assert |s1| == |s2|;
    assert s1 == q[..|s1|] == s2;
  }

  /** If q extends s and also starts with a longer t, then t has a dot right
      after its first |s| characters. */
  lemma DotAfter(q: string, s: string, t: string)
    ensures Extends(q, s) ==> s <= q
    ensures Extends(q, s) && t <= q && |s| < |t| ==> t[|s|] == '.'
  {
    if Extends(q, s) && t <= q && |s| < |t| {
      assert q != s;
      assert q[|s|] == (s + ".")[|s|];
      assert t[|s|] == q[|s|];
    }
  }

  /** Sibling children with different dot-free segments write to disjoint
      paths. */
  lemma SiblingsApart(prefix: string, s1: string, s2: string, p: string)
    requires '.' !in s1 && '.' !in s2
    requires Extends(p, Join(prefix, s1)) && Extends(p, Join(prefix, s2))
    ensures s1 == s2
  {
    var lead := if prefix == "" then "" else prefix + ".";
    assert Join(prefix, s1) == lead + s1;
    assert Join(prefix, s2) == lead + s2;
    DropPrefix(p, lead, s1);
    DropPrefix(p, lead, s2);
    SameSegment(p[|lead|..], s1, s2);
  }

  /** Two batches with distinct paths and no path in common concatenate to a
      batch with distinct paths. */
  lemma DistinctConcat(a: seq<Entry>, b: seq<Entry>)
    requires DistinctKeys(a) && DistinctKeys(b)
    requires forall x, y | x in a && y in b :: x.0 != y.0
    ensures DistinctKeys(a + b)
  {
    var c := a + b;
    forall i, j | 0 <= i < j < |c| ensures c[i].0 != c[j].0 {
      if j < |a| {
        assert c[i] == a[i] && c[j] == a[j];
      } else if i >= |a| {
        assert c[i] == b[i - |a|] && c[j] == b[j - |a|];
      } else {
        assert c[i] in a && c[j] in b;
      }
    }
  }

  /** With simple keys, flatten never writes one path twice. */
  lemma {:induction false} LeavesDistinct(v: Value, prefix: string)
    requires SimpleKeys(v)
    ensures DistinctKeys(Leaves(v, prefix))
    decreases v, 1, 0
  {
    match v
    case Arr(elems) => ElemLeavesDistinct(v, prefix, |elems|);
    case Obj(fields) => FieldLeavesDistinct(v, prefix, |fields|);
    case _ =>
  }

  /** With simple keys, one child never writes one path twice. */
  lemma {:induction false} ChildDistinct(item: Value, key: string)
    requires SimpleKeys(item)
    ensures DistinctKeys(Child(item, key))
    decreases item, 2, 0
  {
    if IsNested(item) {
      LeavesDistinct(item, key);
    }
  }

  lemma {:induction false} ElemLeavesDistinct(v: Value, prefix: string, n: nat)
    requires v.Arr? && n <= |v.elems| && SimpleKeys(v)
    ensures DistinctKeys(ElemLeaves(v, prefix, n))
    decreases v, 0, n
  {
    if n > 0 {
      var a := ElemLeaves(v, prefix, n - 1);
      var segment := NatToString(n - 1);
      var b := Child(v.elems[n - 1], Join(prefix, segment));
      ElemLeavesDistinct(v, prefix, n - 1);
      ChildDistinct(v.elems[n - 1], Join(prefix, segment));
      forall x, y | x in a && y in b ensures x.0 != y.0 {
        var i := ElemOrigin(v, prefix, n - 1, x);
        ChildShape(v.elems[i], Join(prefix, NatToString(i)), x);
        ChildShape(v.elems[n - 1], Join(prefix, segment), y);
        if x.0 == y.0 {
          SiblingsApart(prefix, NatToString(i), segment, x.0);
        }
      }
      DistinctConcat(a, b);
    }
  }

  lemma {:induction false} FieldLeavesDistinct(v: Value, prefix: string, n: nat)
    requires v.Obj? && n <= |v.fields| && SimpleKeys(v)
    ensures DistinctKeys(FieldLeaves(v, prefix, n))
    decreases v, 0, n
  {
    if n > 0 {
      var a := FieldLeaves(v, prefix, n - 1);
      var segment := v.fields[n - 1].0;
      var b := Child(v.fields[n - 1].1, Join(prefix, segment));
      FieldLeavesDistinct(v, prefix, n - 1);
      ChildDistinct(v.fields[n - 1].1, Join(prefix, segment));
      forall x, y | x in a && y in b ensures x.0 != y.0 {
        var i := FieldOrigin(v, prefix, n - 1, x);
        ChildShape(v.fields[i].1, Join(prefix, v.fields[i].0), x);
        ChildShape(v.fields[n - 1].1, Join(prefix, segment), y);
        if x.0 == y.0 {
          SiblingsApart(prefix, v.fields[i].0, segment, x.0);
        }
      }
      DistinctConcat(a, b);
    }
  }

  /** With simple keys the flattened record is the depth-first list of
      leaves: one entry per leaf, no entry lost to a collision. */
  lemma FlattenedSimple(cart: Value)
    requires SimpleKeys(cart)
    ensures Flattened(cart) == Leaves(cart, "")
  {
    LeavesDistinct(cart, "");
    assert [] + Leaves(cart, "") == Leaves(cart, "");
    WriteAllFresh([], Leaves(cart, ""));
  }

  // ---------------------------------------------------------------------
  // One entry per leaf

  /** No null anywhere in v, the root included. */
  predicate NullFree(v: Value)
    decreases v
  {
    match v
    case Null => false
    case Arr(elems) => forall i | 0 <= i < |elems| :: NullFree(elems[i])
    case Obj(fields) => forall i | 0 <= i < |fields| :: NullFree(fields[i].1)
    case _ => true
  }

  /** The number of strings and numbers in v. */
  function ScalarCount(v: Value): nat
    decreases v, 1, 0
  {
    match v
    case Null => 0
    case Str(_) => 1
    case Num(_) => 1
    case Arr(elems) => ElemScalarCount(v, |elems|)
    case Obj(fields) => FieldScalarCount(v, |fields|)
  }

  function ElemScalarCount(v: Value, n: nat): nat
    requires v.Arr? && n <= |v.elems|
    decreases v, 0, n
  {
    if n == 0 then 0 else ElemScalarCount(v, n - 1) + ScalarCount(v.elems[n - 1])
  }

  function FieldScalarCount(v: Value, n: nat): nat
    requires v.Obj? && n <= |v.fields|
    decreases v, 0, n
  {
    if n == 0 then 0 else FieldScalarCount(v, n - 1) + ScalarCount(v.fields[n - 1].1)
  }

  /** Without nulls, flatten makes one assignment per scalar. */
  lemma {:induction false} LeavesCount(v: Value, prefix: string)
    requires NullFree(v)
    ensures |Leaves(v, prefix)| == ScalarCount(v)
    decreases v, 1, 0
  {
    match v
    case Arr(elems) => ElemLeavesCount(v, prefix, |elems|);
    case Obj(fields) => FieldLeavesCount(v, prefix, |fields|);
    case _ =>
  }

  lemma {:induction false} ChildCount(item: Value, key: string)
    requires NullFree(item)
    ensures |Child(item, key)| == ScalarCount(item)
    decreases item, 2, 0
  {
    if IsNested(item) {
      LeavesCount(item, key);
    }
  }

  lemma {:induction false} ElemLeavesCount(v: Value, prefix: string, n: nat)
    requires v.Arr? && n <= |v.elems| && NullFree(v)
    ensures |ElemLeaves(v, prefix, n)| == ElemScalarCount(v, n)
    decreases v, 0, n
  {
    if n > 0 {
      ElemLeavesCount(v, prefix, n - 1);
      ChildCount(v.elems[n - 1], Join(prefix, NatToString(n - 1)));
    }
  }

  lemma {:induction false} FieldLeavesCount(v: Value, prefix: string, n: nat)
    requires v.Obj? && n <= |v.fields| && NullFree(v)
    ensures |FieldLeaves(v, prefix, n)| == FieldScalarCount(v, n)
    decreases v, 0, n
  {
    if n > 0 {
      FieldLeavesCount(v, prefix, n - 1);
      ChildCount(v.fields[n - 1].1, Join(prefix, v.fields[n - 1].0));
    }
  }

  /** With simple keys and no nulls, the flattened record has exactly one
      entry per scalar of the input. */
  lemma FlattenedCount(cart: Value)
    requires SimpleKeys(cart) && NullFree(cart)
    ensures |Flattened(cart)| == ScalarCount(cart)
  {
    FlattenedSimple(cart);
    LeavesCount(cart, "");
  }

  // ---------------------------------------------------------------------
  // Where each child lands

  /** The assignments of every child before n are among those of the first n. */
  lemma {:induction false} ElemLeavesInclude(v: Value, prefix: string, n: nat, i: nat, e: Entry)
    requires v.Arr? && i < n <= |v.elems|
    requires e in Child(v.elems[i], Join(prefix, NatToString(i)))
    ensures e in ElemLeaves(v, prefix, n)
  {
    assert ElemLeaves(v, prefix, n) == ElemLeaves(v, prefix, n - 1) + Child(v.elems[n - 1], Join(prefix, NatToString(n - 1)));
    if i < n - 1 {
      ElemLeavesInclude(v, prefix, n - 1, i, e);
    }
  }

  lemma {:induction false} FieldLeavesInclude(v: Value, prefix: string, n: nat, i: nat, e: Entry)
    requires v.Obj? && i < n <= |v.fields|
    requires e in Child(v.fields[i].1, Join(prefix, v.fields[i].0))
    ensures e in FieldLeaves(v, prefix, n)
  {
    assert FieldLeaves(v, prefix, n) == FieldLeaves(v, prefix, n - 1) + Child(v.fields[n - 1].1, Join(prefix, v.fields[n - 1].0));
    if i < n - 1 {
      FieldLeavesInclude(v, prefix, n - 1, i, e);
    }
  }

  /** Array element i is written at `prefix.i` (just `i` under the empty
      prefix) when it is not a container, a null element included; a
      container element has its own leaves written below that path. */
  lemma ArrayElementPath(v: Value, prefix: string, i: nat)
    requires v.Arr? && i < |v.elems|
    ensures var key := Join(prefix, NatToString(i));
      && (!IsNested(v.elems[i]) ==> (key, v.elems[i]) in Leaves(v, prefix))
      && (IsNested(v.elems[i]) ==> forall e | e in Leaves(v.elems[i], key) :: e in Leaves(v, prefix))
  {
    var key := Join(prefix, NatToString(i));
    forall e | e in Child(v.elems[i], key) ensures e in Leaves(v, prefix) {
      ElemLeavesInclude(v, prefix, |v.elems|, i, e);
    }
  }

  /** Object entry (k, x) is written at `prefix.k` (just `k` under the empty
      prefix) when x is not a container, a null included; a container has its
      own leaves written below that path. */
  lemma ObjectEntryPath(v: Value, prefix: string, i: nat)
    requires v.Obj? && i < |v.fields|
    ensures var key := Join(prefix, v.fields[i].0);
      && (!IsNested(v.fields[i].1) ==> (key, v.fields[i].1) in Leaves(v, prefix))
      && (IsNested(v.fields[i].1) ==> forall e | e in Leaves(v.fields[i].1, key) :: e in Leaves(v, prefix))
  {
    var key := Join(prefix, v.fields[i].0);
    forall e | e in Child(v.fields[i].1, key) ensures e in Leaves(v, prefix) {
      FieldLeavesInclude(v, prefix, |v.fields|, i, e);
    }
  }

  /** A null root writes nothing and a scalar root is written at the empty
      path; empty arrays and objects write nothing wherever they are. */
  lemma RootAndEmptyCases(prefix: string, key: string, s: string)
    ensures Flattened(Null) == []
    ensures Flattened(Str(s)) == [("", Str(s))]
    ensures Leaves(Arr([]), prefix) == [] && Leaves(Obj([]), prefix) == []
    ensures Child(Arr([]), key) == [] && Child(Obj([]), key) == []
    ensures Child(Null, key) == [(key, Null)]
  {
    assert WriteAll([], [("", Str(s))]) == Put(WriteAll([], []), "", Str(s));
  }

  /** A key containing a dot collides with a nested path: the later write
      wins and the first value is lost. */
  lemma DottedKeyCollision(cart: Value)
    requires cart == Obj([("a.b", Num(1.0)), ("a", Obj([("b", Num(2.0))]))])
    ensures Flattened(cart) == [("a.b", Num(2.0))]
  {
    DottedKeyLeaves(cart);
    var first, second := ("a.b", Num(1.0)), ("a.b", Num(2.0));
    assert Leaves(cart, "") == [first] + [second];
    WriteAllConcat([], [first], [second]);
    WriteOne([], first.0, first.1);
    WriteOne(Put([], first.0, first.1), second.0, second.1);
  }

  /** The two assignments the colliding object makes, both at `a.b`. */
  lemma DottedKeyLeaves(cart: Value)
    requires cart == Obj([("a.b", Num(1.0)), ("a", Obj([("b", Num(2.0))]))])
    ensures Leaves(cart, "") == [("a.b", Num(1.0)), ("a.b", Num(2.0))]
  {
    var inner := cart.fields[1].1;
    assert Join("a", "b") == "a.b";
    assert Join("", "a.b") == "a.b";
    assert Join("", "a") == "a";
    assert Leaves(inner, "a") == [("a.b", Num(2.0))] by {
      assert FieldLeaves(inner, "a", 1) == FieldLeaves(inner, "a", 0) + Child(Num(2.0), "a.b");
    }
    assert FieldLeaves(cart, "", 1) == FieldLeaves(cart, "", 0) + Child(Num(1.0), "a.b");
    assert FieldLeaves(cart, "", 2) == FieldLeaves(cart, "", 1) + Child(inner, "a");
  }
}
