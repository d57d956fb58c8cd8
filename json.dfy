/**
 * The JavaScript values that a parsed JSON response body can hold, plus
 * `undefined`, which is what reading a missing property yields. An object is
 * its own properties in enumeration order; a JavaScript object never holds one
 * key twice, which `DistinctKeys` states where a proof needs it.
 */
module Json {
  import Text

  datatype Value =
    | Undefined
    | Null
    | Bool(b: bool)
    | Num(n: int)
    | Str(s: string)
    | Arr(items: seq<Value>)
    | Obj(fields: seq<(string, Value)>)

  /** JavaScript truthiness: `undefined`, `null`, `false`, `0` and `''` are falsy. */
  predicate Truthy(v: Value) {
    match v
    case Undefined => false
    case Null => false
    case Bool(b) => b
    case Num(n) => n != 0
    case Str(s) => s != ""
    case Arr(_) => true
    case Obj(_) => true
  }

  predicate DistinctKeys(fields: seq<(string, Value)>) {
    forall i, j :: 0 <= i < j < |fields| ==> fields[i].0 != fields[j].0
  }

  predicate HasKey(fields: seq<(string, Value)>, key: string) {
    exists i :: 0 <= i < |fields| && fields[i].0 == key
  }

  /** `obj[key]` on an object's properties; `Undefined` when the key is absent. */
  function Lookup(fields: seq<(string, Value)>, key: string): (v: Value)
    ensures v != Undefined ==> exists i :: 0 <= i < |fields| && fields[i] == (key, v)
    ensures !HasKey(fields, key) ==> v == Undefined
    decreases |fields|
  {
    if fields == [] then Undefined
    else if fields[0].0 == key then fields[0].1
    else Lookup(fields[1..], key)
  }

  /** `v.key` for a value that is not `null` or `undefined`: only an object has named properties of its own. */
  function Get(v: Value, key: string): Value {
    if v.Obj? then Lookup(v.fields, key) else Undefined
  }

  /** `obj[key] = v`: an existing key keeps its position and takes the new value; a new key goes last. */
  function Put(fields: seq<(string, Value)>, key: string, v: Value): (r: seq<(string, Value)>)
    ensures Lookup(r, key) == v
    ensures forall k :: k != key ==> Lookup(r, k) == Lookup(fields, k)
    decreases |fields|
  {
    if fields == [] then [(key, v)]
    else if fields[0].0 == key then [(key, v)] + fields[1..]
    else [fields[0]] + Put(fields[1..], key, v)
  }

  /** `{...base, ...extra}`: the properties of `extra` assigned onto a copy of `base`, in order. */
  function Spread(base: seq<(string, Value)>, extra: seq<(string, Value)>): seq<(string, Value)>
    decreases |extra|
  {
    if extra == [] then base else Spread(Put(base, extra[0].0, extra[0].1), extra[1..])
  }

  /** After a spread, a key carried by `extra` reads its value from `extra`, any other key from `base`. */
  lemma {:induction false} LookupSpread(base: seq<(string, Value)>, extra: seq<(string, Value)>, key: string)
    requires DistinctKeys(extra)
    ensures Lookup(Spread(base, extra), key) ==
            if HasKey(extra, key) then Lookup(extra, key) else Lookup(base, key)
    decreases |extra|
  {
    if extra != [] {
      var rest := extra[1..];
      assert DistinctKeys(rest) by {
        forall i, j | 0 <= i < j < |rest| ensures rest[i].0 != rest[j].0 {
          assert rest[i] == extra[i + 1] && rest[j] == extra[j + 1];
        }
      }
      LookupSpread(Put(base, extra[0].0, extra[0].1), rest, key);
      if extra[0].0 == key {
        forall i | 0 <= i < |rest| ensures rest[i].0 != key {
          assert rest[i] == extra[i + 1];
        }
        assert !HasKey(rest, key);
      } else {
        assert HasKey(extra, key) <==> HasKey(rest, key) by {
          if HasKey(extra, key) {
            var i :| 0 <= i < |extra| && extra[i].0 == key;
            assert rest[i - 1] == extra[i];
          }
          if HasKey(rest, key) {
            var i :| 0 <= i < |rest| && rest[i].0 == key;
            assert rest[i] == extra[i + 1];
          }
        }
      }
    }
  }

  /** `a || b`: the left operand when it is truthy, otherwise the right one. */
  function Or(a: Value, b: Value): Value {
    if Truthy(a) then a else b
  }

  /** `xs[0] || xs[1] || ... || last`. */
  function OrChain(xs: seq<Value>, last: Value): Value
    decreases |xs|
  {
    if xs == [] then last else Or(xs[0], OrChain(xs[1..], last))
  }

  lemma {:induction false} OrChainPicksFirstTruthy(xs: seq<Value>, last: Value, k: nat)
    requires k < |xs| && Truthy(xs[k])
    requires forall i :: 0 <= i < k ==> !Truthy(xs[i])
    ensures OrChain(xs, last) == xs[k]
    decreases k
  {
    if k > 0 {
      OrChainPicksFirstTruthy(xs[1..], last, k - 1);
    }
  }

  lemma {:induction false} OrChainFallsThrough(xs: seq<Value>, last: Value)
    requires forall i :: 0 <= i < |xs| ==> !Truthy(xs[i])
    ensures OrChain(xs, last) == last
    decreases |xs|
  {
    if xs != [] {
      OrChainFallsThrough(xs[1..], last);
    }
  }

  /** A chain that ends in a truthy operand is truthy. */
  lemma {:induction false} OrChainTruthy(xs: seq<Value>, last: Value)
    requires Truthy(last)
    ensures Truthy(OrChain(xs, last))
    decreases |xs|
  {
    if xs != [] {
      OrChainTruthy(xs[1..], last);
    }
  }

  /** The properties an array spreads into an object: one per index, named by the index in decimal. */
  function IndexFields(items: seq<Value>): seq<(string, Value)> {
    seq(|items|, i requires 0 <= i < |items| => (Text.NatToString(i), items[i]))
  }

  lemma {:induction false} IndexFieldsDistinct(items: seq<Value>)
    ensures DistinctKeys(IndexFields(items))
  {
    var r := IndexFields(items);
    forall i, j | 0 <= i < j < |r| ensures r[i].0 != r[j].0 {
      Text.NatToStringInjective(i, j);
    }
  }
}
