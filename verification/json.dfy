/**
 Decoded JSON values as the builder receives them: job payloads, build
 targets and snapshot manifests. Python's truthiness and `dict.get` are
 stated over them.
 */
module Json {
  import opened Seqs

  datatype Value =
    | Null
    | Bool(b: bool)
    | Int(i: int)
    | Str(s: string)
    | List(items: seq<Value>)
    | Obj(fields: map<string, Value>)

  /** Python's `bool(v)` for a decoded JSON value. */
  predicate Truthy(v: Value) {
    match v
    case Null => false
    case Bool(b) => b
    case Int(i) => i != 0
    case Str(s) => s != ""
    case List(xs) => xs != []
    case Obj(m) => m != map[]
  }

  /** `m.get(key)`: an absent key reads as None. */
  function Get(m: map<string, Value>, key: string): Value {
    if key in m then m[key] else Null
  }

  /** `[k for k in required if k not in m]`. */
  function MissingKeys(required: seq<string>, m: map<string, Value>): (r: seq<string>)
    ensures Subsequence(r, required)
    ensures r == [] <==> forall k :: k in required ==> k in m
    decreases |required|
  {
    if required == [] then []
    else
      var rest := MissingKeys(required[1..], m);
      if required[0] in m then
        assert forall k :: k in required ==> k == required[0] || k in required[1..];
        SubsequenceOfTail(rest, required);
        rest
      else
        assert Subsequence([required[0]] + rest, required) by {
          assert ([required[0]] + rest)[1..] == rest;
        }
        [required[0]] + rest
  }

  /** The missing list names exactly the required keys absent from `m`. */
  lemma {:induction false} MissingKeysMembers(required: seq<string>, m: map<string, Value>)
    ensures forall k :: k in MissingKeys(required, m) <==> k in required && k !in m
    decreases |required|
  {
    if required != [] {
      MissingKeysMembers(required[1..], m);
      assert forall k :: k in required <==> k == required[0] || k in required[1..];
    }
  }

  /** `[k] if k not in m else []`: one step of the missing-field list. */
  function Absent(k: string, m: map<string, Value>): seq<string> {
    if k in m then [] else [k]
  }

  /** The missing list of `[k] + rest` starts with `k` exactly when `k` is absent. */
  lemma MissingKeysCons(required: seq<string>, m: map<string, Value>)
    requires required != []
    ensures MissingKeys(required, m) == Absent(required[0], m) + MissingKeys(required[1..], m)
  {
  }
}
