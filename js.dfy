/** The slice of JavaScript value semantics the server code relies on:
    truthiness, `a || b`, `String(x)` and plain objects seen as their own
    string-keyed properties in insertion order (what `Object.entries`,
    spreading and property assignment observe). */
module Js {
  import opened Strings

  /** A JavaScript value as it reaches this code: numbers are integers here,
      `Date` carries its epoch milliseconds, `Other` is any other object
      (an array, a plain object), which is truthy and not a string. */
  datatype Value =
    | Undefined
    | Null
    | Bool(b: bool)
    | Num(n: int)
    | Str(s: string)
    | Date(ms: int)
    | Other

  /** JavaScript truthiness: `undefined`, `null`, `false`, `0` and `""` are falsy. */
  predicate Truthy(v: Value) {
    match v
    case Undefined => false
    case Null => false
    case Bool(b) => b
    case Num(n) => n != 0
    case Str(s) => s != ""
    case Date(_) => true
    case Other => true
  }

  /** `a || b`. */
  function Or(a: Value, b: Value): Value {
    if Truthy(a) then a else b
  }

  /** `String(n)` for an integer (in full decimal: see the limits of the
      numbers model). The text reads back as the number: digits for a
      non-negative one, `-` and the digits of its magnitude otherwise. */
  function NumberToString(n: int): (s: string)
    ensures n >= 0 ==> AllDigits(s) && ParseDecimal(s) == n
    ensures n < 0 ==> |s| >= 2 && s[0] == '-' && AllDigits(s[1..]) && ParseDecimal(s[1..]) == -n
  {
    if n < 0 then
      ParseDecimalOfDecimal(-n);
      assert ("-" + Decimal(-n))[1..] == Decimal(-n);
      "-" + Decimal(-n)
    else
      ParseDecimalOfDecimal(n);
      Decimal(n)
  }

  /** One own property of an object. */
  type Entry = (string, Value)

  /** A plain object: its own properties, in insertion order. */
  type Object = seq<Entry>

  function Keys(o: Object): seq<string> {
    seq(|o|, i requires 0 <= i < |o| => o[i].0)
  }

  /** `o[k]`: the value of the first property named `k`, `undefined` when absent. */
  function Get(o: Object, k: string): Value {
    if o == [] then Undefined
    else if o[0].0 == k then o[0].1
    else Get(o[1..], k)
  }

  /** `o[k] = v`: an existing property keeps its place, a new one goes last. */
  function Put(o: Object, k: string, v: Value): Object {
    if o == [] then [(k, v)]
    else if o[0].0 == k then [(k, v)] + o[1..]
    else [o[0]] + Put(o[1..], k, v)
  }

  /** `const {k, ...rest} = o`: `rest` is `o` without property `k`. */
  function Without(o: Object, k: string): Object {
    if o == [] then []
    else if o[0].0 == k then Without(o[1..], k)
    else [o[0]] + Without(o[1..], k)
  }

  /** Assignment changes the assigned property and no other. */
  lemma {:induction false} GetPut(o: Object, k: string, v: Value, k': string)
    ensures Get(Put(o, k, v), k') == if k' == k then v else Get(o, k')
  {
    if o != [] && o[0].0 != k {
      GetPut(o[1..], k, v, k');
    }
  }

  /** Assignment keeps the key order; a new key is appended. */
  lemma {:induction false} KeysPut(o: Object, k: string, v: Value)
    ensures Keys(Put(o, k, v)) == if k in Keys(o) then Keys(o) else Keys(o) + [k]
  {
    if o != [] {
      KeysPut(o[1..], k, v);
      assert Keys(o) == [o[0].0] + Keys(o[1..]);
      if o[0].0 != k {
        assert Keys(Put(o, k, v)) == [o[0].0] + Keys(Put(o[1..], k, v));
      } else {
        assert Keys(Put(o, k, v)) == [k] + Keys(o[1..]);
      }
    }
  }

  /** Rest-destructuring removes `k` and leaves every other property readable. */
  lemma {:induction false} GetWithout(o: Object, k: string, k': string)
    ensures Get(Without(o, k), k') == if k' == k then Undefined else Get(o, k')
  {
    if o != [] {
      GetWithout(o[1..], k, k');
    }
  }

  /** Rest-destructuring keeps exactly the other properties, in their order. */
  lemma {:induction false} WithoutKeeps(o: Object, k: string)
    ensures k !in Keys(Without(o, k))
    ensures forall e :: e in Without(o, k) <==> e in o && e.0 != k
    ensures IsSubsequence(Without(o, k), o)
  {
    if o != [] {
      WithoutKeeps(o[1..], k);
      var w := Without(o[1..], k);
      assert o == [o[0]] + o[1..];
      if o[0].0 != k {
        assert Keys(Without(o, k)) == [o[0].0] + Keys(w);
        assert ([o[0]] + w)[1..] == w;
      } else {
        SubsequenceExtend(w, o[0], o[1..]);
      }
    }
  }

  /** Reading a property the object does not have gives `undefined`. */
  lemma {:induction false} GetAbsent(o: Object, k: string)
    requires k !in Keys(o)
    ensures Get(o, k) == Undefined
  {
    if o != [] {
      assert Keys(o) == [o[0].0] + Keys(o[1..]);
      GetAbsent(o[1..], k);
    }
  }
}
