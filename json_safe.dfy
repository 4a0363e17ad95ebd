/**
 * `_json_safe` (apps/media_library/utils.py): the conversion that makes a
 * guessit result storable in a JSON field.
 */
module JsonSafe {

  /** The Python values a guess can hold. Dictionary keys are strings. */
  datatype PyValue =
    | PDict(entries: seq<(string, PyValue)>)
    | PList(items: seq<PyValue>)
    | PTuple(items: seq<PyValue>)
    | PSet(items: seq<PyValue>)
    | PStr(s: string)
    | PInt(i: int)
    | PFloat(f: real)
    | PBool(b: bool)
    | PNone
    | POther(repr: string)

  /** `str`, `int`, `float`, `bool` or `None`: returned as they are. */
  predicate IsPrimitive(v: PyValue) {
    v.PStr? || v.PInt? || v.PFloat? || v.PBool? || v.PNone?
  }

  /** Built only from dicts, lists and primitives. */
  predicate IsJsonSafe(v: PyValue)
    decreases v
  {
    match v
    case PDict(es) => forall i :: 0 <= i < |es| ==> IsJsonSafe(es[i].1)
    case PList(xs) => forall i :: 0 <= i < |xs| ==> IsJsonSafe(xs[i])
    case PTuple(_) => false
    case PSet(_) => false
    case POther(_) => false
    case _ => true
  }

  function JsonSafeOf(v: PyValue): (r: PyValue)
    ensures IsJsonSafe(r)
    ensures IsPrimitive(v) ==> r == v
    ensures v.POther? ==> r == PStr(v.repr)
    ensures v.PDict? ==> r.PDict? && |r.entries| == |v.entries|
                         && forall i :: 0 <= i < |v.entries| ==> r.entries[i].0 == v.entries[i].0
    ensures (v.PList? || v.PTuple? || v.PSet?) ==> r.PList? && |r.items| == |v.items|
    decreases v
  {
    match v
    case PDict(es) => PDict(seq(|es|, i requires 0 <= i < |es| => (es[i].0, JsonSafeOf(es[i].1))))
    case PList(xs) => PList(seq(|xs|, i requires 0 <= i < |xs| => JsonSafeOf(xs[i])))
    case PTuple(xs) => PList(seq(|xs|, i requires 0 <= i < |xs| => JsonSafeOf(xs[i])))
    case PSet(xs) => PList(seq(|xs|, i requires 0 <= i < |xs| => JsonSafeOf(xs[i])))
    case POther(repr) => PStr(repr)
    case _ => v
  }

  /** A value is left as it is exactly when it is already JSON-safe. */
  lemma {:induction false} JsonSafeFixedIff(v: PyValue)
    ensures JsonSafeOf(v) == v <==> IsJsonSafe(v)
    decreases v
  {
    if IsJsonSafe(v) {
      match v
      case PDict(es) =>
        forall i | 0 <= i < |es| ensures JsonSafeOf(es[i].1) == es[i].1 {
          JsonSafeFixedIff(es[i].1);
        }
        assert JsonSafeOf(v).entries == es;
      case PList(xs) =>
        forall i | 0 <= i < |xs| ensures JsonSafeOf(xs[i]) == xs[i] {
          JsonSafeFixedIff(xs[i]);
        }
        assert JsonSafeOf(v).items == xs;
      case _ =>
    }
  }

  lemma JsonSafeIdempotent(v: PyValue)
    ensures JsonSafeOf(JsonSafeOf(v)) == JsonSafeOf(v)
  {
    JsonSafeFixedIff(JsonSafeOf(v));
  }
}
