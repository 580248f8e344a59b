/** Parsed JSON as the recovery compares it. */
module Json {
  import opened Tolerance

  /** Numbers keep whether they were written as integers. */
  datatype Json =
    | Nul
    | Bool(b: bool)
    | Num(value: real, isInt: bool)
    | Str(s: string)
    | Arr(items: seq<Json>)
    | Obj(fields: map<string, Json>)

  /** Equal but for roundoff in numbers. */
  predicate Same(a: Json, b: Json) {
    match a
    case Obj(fields) => b.Obj? && fields.Keys == b.fields.Keys && forall k | k in fields :: Same(fields[k], b.fields[k])
    case Arr(items) => b.Arr? && |items| == |b.items| && forall i | 0 <= i < |items| :: Same(items[i], b.items[i])
    case Num(value, _) => b.Num? && Close(value, b.value)
    case _ => a == b
  }

  lemma {:induction false} SameIsReflexive(a: Json)
    ensures Same(a, a)
  {
    match a
    case Obj(fields) => forall k | k in fields ensures Same(fields[k], fields[k]) { SameIsReflexive(fields[k]); }
    case Arr(items) => forall i | 0 <= i < |items| ensures Same(items[i], items[i]) { SameIsReflexive(items[i]); }
    case _ =>
  }

  lemma {:induction false} SameIsSymmetric(a: Json, b: Json)
    requires Same(a, b)
    ensures Same(b, a)
  {
    match a
    case Obj(fields) => forall k | k in fields ensures Same(b.fields[k], fields[k]) {
      SameIsSymmetric(fields[k], b.fields[k]);
    }
    case Arr(items) => forall i | 0 <= i < |items| ensures Same(b.items[i], items[i]) {
      SameIsSymmetric(items[i], b.items[i]);
    }
    case _ =>
  }

  /** Nothing in it is a number. */
  predicate NumberFree(a: Json) {
    match a
    case Num(_, _) => false
    case Obj(fields) => forall k | k in fields :: NumberFree(fields[k])
    case Arr(items) => forall i | 0 <= i < |items| :: NumberFree(items[i])
    case _ => true
  }

  /** Only numbers have any latitude. */
  lemma {:induction false} SameWithoutNumbersIsEqual(a: Json, b: Json)
    requires NumberFree(a)
    ensures Same(a, b) <==> a == b
  {
    match a
    case Obj(fields) =>
      if Same(a, b) {
        forall k | k in fields ensures fields[k] == b.fields[k] { SameWithoutNumbersIsEqual(fields[k], b.fields[k]); }
        assert fields == b.fields;
      }
      if a == b { SameIsReflexive(a); }
    case Arr(items) =>
      if Same(a, b) {
        forall i | 0 <= i < |items| ensures items[i] == b.items[i] { SameWithoutNumbersIsEqual(items[i], b.items[i]); }
        assert items == b.items;
      }
      if a == b { SameIsReflexive(a); }
    case _ =>
  }
}
