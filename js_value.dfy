/**
  The loosely typed JSON documents the CMS hands out, and the few JavaScript
  evaluation rules the core relies on when it reads them: property access
  (`a.b`, which throws on `null`/`undefined`), optional chaining (`a?.b`),
  truthiness, `Object.entries` and object spread.
*/
module JsValue {
  import opened Wrappers

  /** A JSON value. Numbers are integers here (see README, "Left out").
      The members of an object are listed in its own-property enumeration
      order, which is the order `Object.entries` and spread observe. */
  datatype Value =
    | Null
    | Bool(b: bool)
    | Num(n: int)
    | Str(s: string)
    | Arr(elems: seq<Value>)
    | Obj(members: seq<(string, Value)>)

  /** How an expression finishes: with a value, or by throwing a TypeError. */
  datatype Completion<+T> = Normal(value: T) | Throws

  /** The value of the first member named `key`, if any. */
  function FindMember(ms: seq<(string, Value)>, key: string): (r: Option<Value>)
    ensures r.None? <==> forall i :: 0 <= i < |ms| ==> ms[i].0 != key
    ensures r.Some? ==> exists i :: 0 <= i < |ms| && ms[i] == (key, r.value) &&
                                   forall j :: 0 <= j < i ==> ms[j].0 != key
  {
    if ms == [] then None
    else if ms[0].0 == key then Some(ms[0].1)
    else
      var r := FindMember(ms[1..], key);
      assert forall i :: 1 <= i < |ms| ==> ms[i] == ms[1..][i - 1];
      if r.Some? then
        var i :| 0 <= i < |ms[1..]| && ms[1..][i] == (key, r.value) &&
                 forall j :: 0 <= j < i ==> ms[1..][j].0 != key;
        assert ms[i + 1] == (key, r.value);
        r
      else r
  }

  /** The data member `key` of a non-null value: present only on objects.
      (Built-in members such as `length` are never read by the core.) */
  function Member(v: Value, key: string): Option<Value>
  {
    if v.Obj? then FindMember(v.members, key) else None
  }

  /** `base.key` where `base` may be undefined (`None`): throws on
      `undefined` and `null`, otherwise yields the member or `undefined`. */
  function Get(base: Option<Value>, key: string): (r: Completion<Option<Value>>)
    ensures r.Throws? <==> base.None? || base.value.Null?
  {
    if base.None? || base.value.Null? then Throws else Normal(Member(base.value, key))
  }

  /** `base?.key`: `undefined` instead of throwing on `undefined` and `null`. */
  function OptGet(base: Option<Value>, key: string): (r: Option<Value>)
    ensures Get(base, key).Normal? ==> r == Get(base, key).value
    ensures Get(base, key).Throws? ==> r.None?
  {
    if base.None? || base.value.Null? then None else Member(base.value, key)
  }

  /** JavaScript truthiness; `None` stands for `undefined`. */
  predicate Truthy(v: Option<Value>)
  {
    match v
    case None => false
    case Some(x) =>
      match x
      case Null => false
      case Bool(b) => b
      case Num(n) => n != 0
      case Str(s) => s != ""
      case Arr(_) => true
      case Obj(_) => true
  }

  /** The decimal spelling JavaScript uses for an array index key. */
  function IndexKey(n: nat): (r: string)
    ensures r != ""
    decreases n
  {
    var d := ['0', '1', '2', '3', '4', '5', '6', '7', '8', '9'][n % 10];
    if n < 10 then [d] else IndexKey(n / 10) + [d]
  }

  /** The `[key, value]` pairs of `elems`, keyed by index from `from` on. */
  function Indexed(elems: seq<Value>, from: nat): (r: seq<(string, Value)>)
    ensures |r| == |elems|
    ensures forall i :: 0 <= i < |r| ==> r[i].1 == elems[i]
    decreases |elems|
  {
    if elems == [] then [] else [(IndexKey(from), elems[0])] + Indexed(elems[1..], from + 1)
  }

  /** One-character strings, as indexing a string yields them. */
  function Chars(s: string): (r: seq<Value>)
    ensures |r| == |s|
    ensures forall i :: 0 <= i < |s| ==> r[i] == Str([s[i]])
  {
    if s == [] then [] else [Str([s[0]])] + Chars(s[1..])
  }

  /** `Object.entries(v)`: throws on `null`; no entries for booleans and numbers. */
  function Entries(v: Value): (r: Completion<seq<(string, Value)>>)
    ensures r.Throws? <==> v.Null?
    ensures v.Obj? ==> r == Normal(v.members)
  {
    match v
    case Null => Throws
    case Bool(_) => Normal([])
    case Num(_) => Normal([])
    case Str(s) => Normal(Indexed(Chars(s), 0))
    case Arr(es) => Normal(Indexed(es, 0))
    case Obj(ms) => Normal(ms)
  }

  /** `const [key, value] = Object.entries(v)[0]`: the value of the first
      entry, or a TypeError when there is none (destructuring `undefined`). */
  function FirstEntryValue(v: Value): (r: Completion<Value>)
    ensures r.Normal? <==> Entries(v).Normal? && Entries(v).value != []
    ensures r.Normal? ==> r.value == Entries(v).value[0].1
  {
    match Entries(v)
    case Throws => Throws
    case Normal(es) => if es == [] then Throws else Normal(es[0].1)
  }

  /** `{...v}`: a fresh object holding the own entries of `v` (none for `null`). */
  function Spread(v: Value): (r: Value)
    ensures r.Obj?
    ensures v.Obj? ==> r == v
  {
    match Entries(v)
    case Throws => Obj([])
    case Normal(es) => Obj(es)
  }
}
