/** The JavaScript values that flow through the build: parsed YAML and JSON,
    the show and song tables, and the render contexts handed to templates. */
module Values {

  import opened JsNumbers

  /** A JavaScript value as far as the build inspects it. */
  datatype Value =
    | Undefined
    | Null
    | Bool(b: bool)
    | Num(n: real)
    | Str(s: string)
    | List(items: seq<Value>)
    | Obj(fields: map<string, Value>)
    | Inherited(name: string)   // a property every object inherits from `Object.prototype`

  /** A render context: the plain object a compiled template is applied to. */
  type Context = map<string, Value>

  /** The properties a plain object inherits from `Object.prototype` (ECMAScript
      2023, section 20.1.3, and Annex B.2.2); reading one of them gives a method,
      or the prototype itself for `__proto__`, never `undefined`. */
  const ObjectPrototypeNames: seq<string> :=
    ["constructor", "hasOwnProperty", "isPrototypeOf", "propertyIsEnumerable",
     "toLocaleString", "toString", "valueOf", "__proto__",
     "__defineGetter__", "__defineSetter__", "__lookupGetter__", "__lookupSetter__"]

  /** Property access `v[k]` on a plain object: an own property first, then one
      inherited from `Object.prototype`; anything else reads as `undefined`. */
  function Member(v: Value, k: string): (r: Value)
    ensures v.Obj? && k in v.fields ==> r == v.fields[k]
    ensures v.Obj? && k !in v.fields && k in ObjectPrototypeNames ==> r == Inherited(k)
    ensures v.Obj? && k !in v.fields && k !in ObjectPrototypeNames ==> r == Undefined
    ensures !v.Obj? ==> r == Undefined
  {
    if v.Obj? && k in v.fields then v.fields[k]
    else if v.Obj? && k in ObjectPrototypeNames then Inherited(k)
    else Undefined
  }

  /** The properties readable on a plain object with own properties `fields`:
      those, and the ones it inherits from `Object.prototype`. */
  function Readable(fields: map<string, Value>): (m: map<string, Value>)
    ensures forall k :: Member(Obj(fields), k) == if k in m then m[k] else Undefined
  {
    map k | k in fields.Keys + (set n | n in ObjectPrototypeNames) :: Member(Obj(fields), k)
  }

  /** The key of the accessor `Object.prototype.__proto__`. */
  const ProtoKey: string := "__proto__"

  /** The assignment `o[k] = v` on a plain object. For `__proto__` it reaches the
      accessor inherited from `Object.prototype`, which replaces the prototype and
      adds no own property, unless `o` already holds an own `__proto__` (one made
      by a computed key or by spread), which it then overwrites. */
  function SetProperty(o: Context, k: string, v: Value): (r: Context)
    ensures r.Keys == if k == ProtoKey && k !in o then o.Keys else o.Keys + {k}
    ensures forall j :: j in r ==> r[j] == if j == k then v else o[j]
  {
    if k == ProtoKey && k !in o then o else o[k := v]
  }

  /** The property key of an array or string index: the index in decimal. */
  function IndexKey(i: nat): string {
    NatToString(i, 10)
  }

  /** Different indices have different keys. */
  lemma IndexKeysDistinct()
    ensures forall i: nat, j: nat {:trigger IndexKey(i), IndexKey(j)} :: IndexKey(i) == IndexKey(j) ==> i == j
  {
    forall i: nat, j: nat | IndexKey(i) == IndexKey(j) ensures i == j {
      ParsePrintedDecimal(i);
      ParsePrintedDecimal(j);
    }
  }

  /** The object `{...items}` of an array. */
  function Indexed(items: seq<Value>): Context {
    IndexKeysDistinct();
    map i | 0 <= i < |items| :: IndexKey(i) := items[i]
  }

  /** `{...items}` has one key per index, holding that index's item. */
  lemma IndexedKeys(items: seq<Value>)
    ensures forall k :: k in Indexed(items) <==> exists i :: 0 <= i < |items| && k == IndexKey(i)
    ensures forall i :: 0 <= i < |items| ==> IndexKey(i) in Indexed(items) && Indexed(items)[IndexKey(i)] == items[i]
  {
  }

  /** The characters of a string, each as a one-character string. */
  function Characters(s: string): (r: seq<Value>)
    ensures |r| == |s| && forall i :: 0 <= i < |s| ==> r[i] == Str([s[i]])
  {
    seq(|s|, i requires 0 <= i < |s| => Str([s[i]]))
  }

  /** The own enumerable properties object spread `{...v}` copies: an object's
      fields, one key per index for an array or a string (each character as a
      one-character string), and nothing for `undefined`, `null`, booleans and
      numbers. */
  function Spread(v: Value): (c: Context)
    ensures v.Obj? ==> c == v.fields
    ensures v.List? ==> c == Indexed(v.items)
    ensures v.Str? ==> c == Indexed(Characters(v.s))
    ensures !v.Obj? && !v.List? && !v.Str? ==> c == map[]
  {
    match v
    case Obj(fields) => fields
    case List(items) => Indexed(items)
    case Str(s) => Indexed(Characters(s))
    case _ => map[]
  }

  /** An ordered table of entries, as `Object.entries` of a plain object returns it. */
  type Table = seq<(string, Value)>

  /** The ids of a table, in entry order. */
  function Ids(t: Table): (ids: seq<string>)
    ensures |ids| == |t|
    ensures forall i :: 0 <= i < |t| ==> ids[i] == t[i].0
  {
    seq(|t|, i requires 0 <= i < |t| => t[i].0)
  }

  /** True when no id occurs twice, as for the keys of a JavaScript object. */
  predicate DistinctIds(t: Table) {
    forall i, j :: 0 <= i < j < |t| ==> t[i].0 != t[j].0
  }

  /** The object a table was read from. */
  function AsObject(t: Table): (v: Value)
    requires DistinctIds(t)
    ensures v.Obj? && v.fields.Keys == set i | 0 <= i < |t| :: t[i].0
    ensures forall i :: 0 <= i < |t| ==> v.fields[t[i].0] == t[i].1
  {
    Obj(map i | 0 <= i < |t| :: t[i].0 := t[i].1)
  }
}
