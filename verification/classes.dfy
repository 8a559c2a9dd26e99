/**
  Python values as the view-set metaclass sees a class body: class objects,
  dictionaries, tuples and plain constants; and a class as its own namespace
  plus what it inherits.
 */
module Classes {
  import opened Basics
  import opened Actions

  /** A value bound in a class body. */
  datatype Value =
    | ClassVal(cls: ClassRef)
    | DictVal(entries: map<string, Value>)
    | TupleVal(items: seq<Value>)
    | Constant(c: Scalar)

  /** A class attribute: plain data, or a function (a handler when it carries
      action metadata). */
  datatype Attr = Data(v: Value) | Func(f: Function)

  type Namespace = map<string, Attr>

  /** A `class` statement: its name, its direct bases and its body's namespace. */
  datatype ClassDef = ClassDef(name: string, bases: seq<string>, body: Namespace)

  /** A class object once created. `inherited` is the namespace its bases
      contribute along the method resolution order, `ancestors` names every
      class on that order after the class itself, and `transponder` says
      whether `CBVTransponder` is one of them. */
  datatype ClassObj = ClassObj(name: string, own: Namespace, inherited: Namespace, ancestors: set<string>, transponder: bool)

  /** Attribute lookup on the class: its own namespace first, then what it inherits. */
  function Resolve(c: ClassObj): (ns: Namespace)
    ensures ns.Keys == c.own.Keys + c.inherited.Keys
    ensures forall a :: a in c.own ==> ns[a] == c.own[a]
    ensures forall a :: a in c.inherited && a !in c.own ==> ns[a] == c.inherited[a]
  {
    c.inherited + c.own
  }

  const CBVTransponder: string := "CBVTransponder"
  const BaseViewSet: string := "BaseViewSet"

  /** Python truthiness of a constant. */
  predicate Truthy(v: Value)
  {
    match v
    case ClassVal(_) => true
    case DictVal(m) => |m| > 0
    case TupleVal(xs) => |xs| > 0
    case Constant(c) =>
      match c
      case Null => false
      case Bool(b) => b
      case Int(i) => i != 0
      case Str(s) => |s| > 0
  }

  /** `cls.auto_view_path`: `BaseViewSet` sets it to True, and a subclass may override it. */
  predicate AutoViewPath(c: ClassObj)
  {
    var ns := Resolve(c);
    "auto_view_path" !in ns || match ns["auto_view_path"]
      case Data(v) => Truthy(v)
      case Func(_) => true
  }
}
