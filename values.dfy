/**
  The JavaScript values a configuration tree holds, and the few pieces of
  JavaScript semantics the stores rely on: truthiness, `typeof v === 'object'`,
  `Array.isArray`, reading, writing and deleting a property.

  An array is modelled as the object it is in JavaScript: a property map whose
  keys are index strings ("0", "1", ...). Walking a key path through an array
  then behaves exactly like walking through an object.
 */
module Values {

  datatype Option<+T> = None | Some(value: T)

  datatype Value =
    | Null
    | Bool(b: bool)
    | Num(n: real)
    | Str(s: string)
    | Arr(items: map<string, Value>)
    | Obj(props: map<string, Value>)

  /** JavaScript truthiness: `null`, `false`, `0` and `''` are falsy. */
  predicate Truthy(v: Value)
  {
    match v
    case Null => false
    case Bool(b) => b
    case Num(n) => n != 0.0
    case Str(s) => s != ""
    case Arr(_) => true
    case Obj(_) => true
  }

  /** `typeof v === 'object'`, which holds of `null` and of arrays too. */
  predicate IsObjectType(v: Value)
  {
    v.Null? || v.Arr? || v.Obj?
  }

  /** A value that has properties of its own: an object or an array. */
  predicate IsContainer(v: Value)
  {
    v.Arr? || v.Obj?
  }

  lemma ContainerIsTruthyObject(v: Value)
    ensures IsContainer(v) <==> Truthy(v) && IsObjectType(v)
  {
  }

  /** The own properties of a value; a primitive has none. */
  function Props(v: Value): map<string, Value>
  {
    match v
    case Arr(m) => m
    case Obj(m) => m
    case _ => map[]
  }

  /** `t[k]`, where `None` is `undefined`. */
  function Prop(t: Value, k: string): Option<Value>
  {
    if k in Props(t) then Some(Props(t)[k]) else None
  }

  /** `t[k] = v`; on a primitive the write is silently lost (sloppy mode). */
  function Put(t: Value, k: string, v: Value): (r: Value)
    ensures r.Obj? == t.Obj? && r.Arr? == t.Arr?
    ensures IsContainer(t) ==> Props(r) == Props(t)[k := v]
    ensures !IsContainer(t) ==> r == t
  {
    match t
    case Arr(m) => Arr(m[k := v])
    case Obj(m) => Obj(m[k := v])
    case _ => t
  }

  /** `delete t[k]`; deleting from a primitive changes nothing. */
  function Del(t: Value, k: string): (r: Value)
    ensures r.Obj? == t.Obj? && r.Arr? == t.Arr?
    ensures IsContainer(t) ==> Props(r) == Props(t) - {k}
    ensures !IsContainer(t) ==> r == t
  {
    match t
    case Arr(m) => Arr(m - {k})
    case Obj(m) => Obj(m - {k})
    case _ => t
  }

  /**
    Lexicographic order on strings. A map carries no insertion order, so the
    model enumerates an object's keys (`Object.keys`) in this order.
   */
  predicate Below(a: string, b: string)
  {
    |a| == 0 || (|b| > 0 && (a[0] < b[0] || (a[0] == b[0] && Below(a[1..], b[1..]))))
  }

  lemma {:induction false} BelowTotal(a: string, b: string)
    ensures Below(a, b) || Below(b, a)
  {
    if |a| > 0 && |b| > 0 && a[0] == b[0] {
      BelowTotal(a[1..], b[1..]);
    }
  }

  lemma {:induction false} BelowTransitive(a: string, b: string, c: string)
    requires Below(a, b) && Below(b, c)
    ensures Below(a, c)
  {
    if |a| > 0 && |b| > 0 && |c| > 0 && a[0] == b[0] && b[0] == c[0] {
      BelowTransitive(a[1..], b[1..], c[1..]);
    }
  }

  lemma {:induction false} BelowAntisymmetric(a: string, b: string)
    requires Below(a, b) && Below(b, a)
    ensures a == b
  {
    if |a| > 0 {
      BelowAntisymmetric(a[1..], b[1..]);
      assert a == [a[0]] + a[1..] && b == [b[0]] + b[1..];
    }
  }

  lemma {:induction false} LeastExists(s: set<string>)
    requires s != {}
    ensures exists m :: m in s && forall x | x in s :: Below(m, x)
    decreases |s|
  {
    var y :| y in s;
    if s == {y} {
      BelowTotal(y, y);
    } else {
      LeastExists(s - {y});
      var m :| m in s - {y} && forall x | x in s - {y} :: Below(m, x);
      BelowTotal(m, y);
      if Below(m, y) {
        assert forall x | x in s :: Below(m, x);
      } else {
        forall x | x in s
          ensures Below(y, x)
        {
          if x != y {
            BelowTransitive(y, m, x);
          } else {
            BelowTotal(y, y);
          }
        }
      }
    }
  }

  /** The first key of `s` in the enumeration order. */
  function Least(s: set<string>): (m: string)
    requires s != {}
    ensures m in s && forall x | x in s :: Below(m, x)
  {
    LeastExists(s);
    forall a, b | Below(a, b) && Below(b, a)
      ensures a == b
    {
      BelowAntisymmetric(a, b);
    }
    var m :| m in s && forall x | x in s :: Below(m, x); m
  }
}
