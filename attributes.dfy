/**
 * The value side of `BaseModel` (models/base_model.py): attribute values, the
 * instance dictionary `__dict__`, the `to_dict` representation and the way
 * `__init__(**kwargs)` rebuilds a dictionary from such a representation.
 */
module Attributes {
  import opened Wrappers
  import opened IsoDateTime

  /** The model classes: `BaseModel` itself and its six mapped subclasses. */
  datatype ClassName = BaseModelClass | User | State | City | Amenity | Place | Review

  /** `cls.__name__` */
  function Name(c: ClassName): string {
    match c
    case BaseModelClass => "BaseModel"
    case User => "User"
    case State => "State"
    case City => "City"
    case Amenity => "Amenity"
    case Place => "Place"
    case Review => "Review"
  }

  /** The class a `__class__` tag names, if any. */
  function ClassNamed(n: string): (r: Option<ClassName>)
    ensures r.Some? ==> Name(r.value) == n
    ensures forall c: ClassName :: Name(c) == n ==> r == Some(c)
  {
    if n == "BaseModel" then Some(BaseModelClass)
    else if n == "User" then Some(User)
    else if n == "State" then Some(State)
    else if n == "City" then Some(City)
    else if n == "Amenity" then Some(Amenity)
    else if n == "Place" then Some(Place)
    else if n == "Review" then Some(Review)
    else None
  }

  /** An attribute value. Floats are kept as their `repr` text; no arithmetic is done on them. */
  datatype Value =
    | VNone
    | VBool(b: bool)
    | VInt(i: int)
    | VFloat(repr: string)
    | VStr(s: string)
    | VTime(t: DateTime)

  /** An instance dictionary, or a keyword-argument dictionary: attribute name to value. */
  type Attrs = map<string, Value>

  const ClassKey := "__class__"
  const OrmStateKey := "_sa_instance_state"
  const CreatedKey := "created_at"
  const UpdatedKey := "updated_at"

  /** What every instance dictionary holds from `__init__` on: an id and two datetimes. */
  predicate HasIdentity(m: Attrs) {
    && "id" in m
    && CreatedKey in m && m[CreatedKey].VTime?
    && UpdatedKey in m && m[UpdatedKey].VTime?
  }

  type Record = m: Attrs | HasIdentity(m)
    witness map["id" := VNone, CreatedKey := VTime(Stamp(1, 1, 1, 0, 0, 0, 0)),
                UpdatedKey := VTime(Stamp(1, 1, 1, 0, 0, 0, 0))]

  /** Errors raised while rebuilding objects. */
  datatype Error =
    | ParseError   // `fromisoformat` refused a timestamp (ValueError, or TypeError for a non-string)
    | UnknownType  // a stored `__class__` tag is missing or names no model class (KeyError)

  // ------------------------------------------------------------------ str()

  function NatText(n: nat): string {
    if n < 10 then [DigitChar(n)] else NatText(n / 10) + [DigitChar(n % 10)]
  }

  /** `str(v)`, as used when an id is formatted into a key or into `__str__`. */
  function Text(v: Value): string {
    match v
    case VNone => "None"
    case VBool(b) => if b then "True" else "False"
    case VInt(i) => if i < 0 then "-" + NatText(-i) else NatText(i)
    case VFloat(r) => r
    case VStr(s) => s
    case VTime(t) => IsoFormat(t, ' ')
  }

  // --------------------------------------------------------------- to_dict

  /** One value of `to_dict`: datetimes become `isoformat()` text, everything else is kept. */
  function Rendered(v: Value): (r: Value)
    ensures !r.VTime?
    ensures v.VTime? ==> r == VStr(IsoFormat(v.t, 'T'))
    ensures !v.VTime? ==> r == v
  {
    if v.VTime? then VStr(IsoFormat(v.t, 'T')) else v
  }

  /** `to_dict()` of an instance of class `cls` whose `__dict__` is `a`. */
  function DictOf(cls: ClassName, a: Attrs): (d: Attrs)
    ensures d.Keys == a.Keys - {OrmStateKey} + {ClassKey}
    ensures ClassKey in d && d[ClassKey] == VStr(Name(cls))
    ensures OrmStateKey !in d
    ensures forall k :: k in d && k != ClassKey ==> k in a && d[k] == Rendered(a[k])
    ensures forall k :: k in d ==> !d[k].VTime?
  {
    (map k | k in a :: Rendered(a[k]))[ClassKey := VStr(Name(cls))] - {OrmStateKey}
  }

  // ---------------------------------------------------------- __init__(**kwargs)

  /** The dictionary `__init__` starts from: a fresh id and the two clock readings. */
  function Defaults(id: string, created: DateTime, updated: DateTime): (r: Record)
    ensures r.Keys == {"id", CreatedKey, UpdatedKey}
    ensures r["id"] == VStr(id) && r[CreatedKey] == VTime(created) && r[UpdatedKey] == VTime(updated)
  {
    map["id" := VStr(id), CreatedKey := VTime(created), UpdatedKey := VTime(updated)]
  }

  predicate IsStampKey(k: string) {
    k == CreatedKey || k == UpdatedKey
  }

  /** `datetime.fromisoformat(v)` succeeds. */
  predicate Parses(v: Value) {
    v.VStr? && FromIsoFormat(v.s).Some?
  }

  /** The kwargs entry for timestamp key `k`, if present, parses. */
  predicate StampParses(kwargs: Attrs, k: string) {
    k in kwargs ==> Parses(kwargs[k])
  }

  /** The instance dictionary with every kwargs entry but `__class__` set as given. */
  function Copied(defaults: Record, kwargs: Attrs): Attrs {
    map k | k in defaults.Keys + (kwargs.Keys - {ClassKey}) ::
      if k in kwargs && k != ClassKey then kwargs[k] else defaults[k]
  }

  /** Timestamp key `k`, when given, set to the datetime its text parses to. */
  function WithStamp(m: Attrs, kwargs: Attrs, k: string): Attrs
    requires StampParses(kwargs, k)
  {
    if k in kwargs then m[k := VTime(FromIsoFormat(kwargs[k].s).value)] else m
  }

  /** The instance dictionary after every kwargs entry but `__class__` has been set. */
  function Overlay(defaults: Record, kwargs: Attrs): Record
    requires StampParses(kwargs, CreatedKey) && StampParses(kwargs, UpdatedKey)
  {
    WithStamp(WithStamp(Copied(defaults, kwargs), kwargs, CreatedKey), kwargs, UpdatedKey)
  }

  /**
   * The instance dictionary `__init__(**kwargs)` leaves, starting from `defaults`,
   * or the error it raises.
   */
  function Hydrate(defaults: Record, kwargs: Attrs): (r: Result<Record, Error>)
    ensures r.Ok? <==> |kwargs| == 0 || (StampParses(kwargs, CreatedKey) && StampParses(kwargs, UpdatedKey))
    ensures r.Err? ==> r.error == ParseError
  {
    if |kwargs| == 0 then Ok(defaults)
    else if !StampParses(kwargs, CreatedKey) || !StampParses(kwargs, UpdatedKey) then Err(ParseError)
    else Ok(Overlay(defaults, kwargs))
  }

  /**
   * What a successful `__init__(**kwargs)` leaves: every kwargs entry but the
   * `__class__` tag copied, the two timestamps parsed, and each default kept
   * where kwargs does not replace it.
   */
  lemma HydrateValue(defaults: Record, kwargs: Attrs)
    requires Hydrate(defaults, kwargs).Ok?
    ensures var b := Hydrate(defaults, kwargs).value;
      && b.Keys == defaults.Keys + (kwargs.Keys - {ClassKey})
      && (ClassKey in b ==> ClassKey in defaults && b[ClassKey] == defaults[ClassKey])
      && (forall k :: k in kwargs && k != ClassKey && !IsStampKey(k) ==> b[k] == kwargs[k])
      && (CreatedKey in kwargs ==> kwargs[CreatedKey].VStr? && FromIsoFormat(kwargs[CreatedKey].s) == Some(b[CreatedKey].t))
      && (UpdatedKey in kwargs ==> kwargs[UpdatedKey].VStr? && FromIsoFormat(kwargs[UpdatedKey].s) == Some(b[UpdatedKey].t))
      && (forall k :: k in defaults && (k !in kwargs || k == ClassKey) ==> b[k] == defaults[k])
  {
  }

  /** The timestamps `to_dict` writes are read back by `__init__` as the same datetimes. */
  lemma DictOfParses(cls: ClassName, a: Record)
    ensures DictOf(cls, a)[CreatedKey].VStr? && FromIsoFormat(DictOf(cls, a)[CreatedKey].s) == Some(a[CreatedKey].t)
    ensures DictOf(cls, a)[UpdatedKey].VStr? && FromIsoFormat(DictOf(cls, a)[UpdatedKey].s) == Some(a[UpdatedKey].t)
  {
    IsoRoundTrip(a[CreatedKey].t, 'T');
    IsoRoundTrip(a[UpdatedKey].t, 'T');
  }

  /** `__init__(**d)` succeeds when both timestamps of `d` parse, and keeps every key of `d` but the tag. */
  lemma HydrateKeys(defaults: Record, d: Attrs)
    requires defaults.Keys == {"id", CreatedKey, UpdatedKey}
    requires ClassKey in d && "id" in d && CreatedKey in d && UpdatedKey in d
    requires Parses(d[CreatedKey]) && Parses(d[UpdatedKey])
    ensures Hydrate(defaults, d).Ok?
    ensures Hydrate(defaults, d).value.Keys == d.Keys - {ClassKey}
  {
    assert |d| > 0;
    HydrateValue(defaults, d);
    var b := Hydrate(defaults, d).value;
    forall k ensures k in b <==> k in d.Keys - {ClassKey} {
      assert k in b <==> k in defaults.Keys + (d.Keys - {ClassKey});
    }
  }

  /** What `__init__(**d)` leaves when `d` is shaped like the `to_dict` of `a`. */
  lemma HydrateRepresentation(defaults: Record, d: Attrs, a: Record)
    requires defaults.Keys == {"id", CreatedKey, UpdatedKey}
    requires d.Keys == a.Keys - {OrmStateKey} + {ClassKey}
    requires forall k :: k in d && k != ClassKey && !IsStampKey(k) ==> k in a && d[k] == Rendered(a[k])
    requires d[CreatedKey].VStr? && FromIsoFormat(d[CreatedKey].s) == Some(a[CreatedKey].t)
    requires d[UpdatedKey].VStr? && FromIsoFormat(d[UpdatedKey].s) == Some(a[UpdatedKey].t)
    ensures Hydrate(defaults, d).Ok?
    ensures var b := Hydrate(defaults, d).value;
      && b.Keys == a.Keys - {OrmStateKey, ClassKey}
      && forall k :: k in b ==> b[k] == if IsStampKey(k) then a[k] else Rendered(a[k])
  {
    HydrateKeys(defaults, d);
    HydrateValue(defaults, d);
    var b := Hydrate(defaults, d).value;
    assert b.Keys == a.Keys - {OrmStateKey, ClassKey};
    forall k | k in b ensures b[k] == if IsStampKey(k) then a[k] else Rendered(a[k]) {
      if k == CreatedKey {
        assert Some(b[CreatedKey].t) == Some(a[CreatedKey].t);
      } else if k == UpdatedKey {
        assert Some(b[UpdatedKey].t) == Some(a[UpdatedKey].t);
      } else {
        assert k in d && k != ClassKey;
      }
    }
  }

  /** Rendering a rendered value changes nothing. */
  lemma RenderedIdempotent(v: Value)
    ensures Rendered(Rendered(v)) == Rendered(v)
  {
  }

  /** `to_dict` depends only on the rendered values, the class and the keys. */
  lemma DictOfSameRendering(cls: ClassName, a: Attrs, b: Attrs)
    requires b.Keys - {OrmStateKey, ClassKey} == a.Keys - {OrmStateKey, ClassKey}
    requires forall k :: k in b && k in a && k != OrmStateKey && k != ClassKey ==> Rendered(b[k]) == Rendered(a[k])
    ensures DictOf(cls, b) == DictOf(cls, a)
  {
    var d, d' := DictOf(cls, a), DictOf(cls, b);
    forall k ensures k in d' <==> k in d {
      assert k in b - {OrmStateKey, ClassKey} <==> k in a - {OrmStateKey, ClassKey};
    }
    assert d'.Keys == d.Keys;
    forall k | k in d ensures d'[k] == d[k] {
      if k != ClassKey {
        assert k in b - {OrmStateKey, ClassKey};
      }
    }
  }

  /** `to_dict` sees only rendered values, so rendering again changes nothing. */
  lemma DictOfRendered(cls: ClassName, a: Record, b: Attrs)
    requires b.Keys == a.Keys - {OrmStateKey, ClassKey}
    requires forall k :: k in b ==> b[k] == if IsStampKey(k) then a[k] else Rendered(a[k])
    ensures DictOf(cls, b) == DictOf(cls, a)
  {
    forall k | k in b && k != OrmStateKey && k != ClassKey ensures Rendered(b[k]) == Rendered(a[k]) {
      RenderedIdempotent(a[k]);
    }
    DictOfSameRendering(cls, a, b);
  }

  /**
   * The serialisation round trip: rebuilding an object from its `to_dict`
   * and serialising it again gives the same dictionary, whatever id and clock
   * readings the new object started from.
   */
  lemma RoundTrip(cls: ClassName, a: Record, id: string, created: DateTime, updated: DateTime)
    ensures Hydrate(Defaults(id, created, updated), DictOf(cls, a)).Ok?
    ensures DictOf(cls, Hydrate(Defaults(id, created, updated), DictOf(cls, a)).value) == DictOf(cls, a)
  {
    var defaults, d := Defaults(id, created, updated), DictOf(cls, a);
    DictOfParses(cls, a);
    HydrateRepresentation(defaults, d, a);
    DictOfRendered(cls, a, Hydrate(defaults, d).value);
  }
}
