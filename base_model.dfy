/**
 * `BaseModel` as an object (models/base_model.py) together with the JSON-file
 * storage engine it registers and saves itself into. The two live in one module
 * because `BaseModel.save` calls into the storage and the storage's `reload`
 * calls the model constructors.
 *
 * models/engine/file_storage.py is not part of this model: `FileStorage` below is
 * a stand-in whose behaviour follows the file-storage tests
 * (tests/test_models/test_engine/test_file_storage.py).
 */
module Models {
  import opened Wrappers
  import opened IsoDateTime
  import opened Attributes

  /** The text of `str(uuid.uuid4())`, of which only its length of 36 characters is modelled. */
  type Uuid = s: string | |s| == 36 witness "00000000-0000-0000-0000-000000000000"

  /** The composite key `"<Class>.<id>"` under which storage files an object, given `str(id)`. */
  function KeyOf(cls: ClassName, id: string): (k: string)
    ensures |k| == |Name(cls)| + 1 + |id|
    ensures k[..|Name(cls)|] == Name(cls) && k[|Name(cls)|] == '.' && k[|Name(cls)| + 1..] == id
  {
    Name(cls) + "." + id
  }

  /** `__str__`: `[<Class>] (<id>) <dict>`, given `str(id)` and the text of the dictionary. */
  function StrOf(cls: ClassName, id: string, dictText: string): (s: string)
    ensures var n, m := |Name(cls)|, |id|;
      && |s| == n + m + 6 + |dictText|
      && s[0] == '[' && s[1..n + 1] == Name(cls) && s[n + 1..n + 4] == "] ("
      && s[n + 4..n + 4 + m] == id && s[n + 4 + m..n + 6 + m] == ") " && s[n + 6 + m..] == dictText
  {
    "[" + Name(cls) + "] (" + id + ") " + dictText
  }

  /** No class name contains `sep`. */
  predicate NamesAvoid(sep: char) {
    forall c: ClassName :: sep !in Name(c)
  }

  /** Where the first `sep` of `s` stands, or `|s|` when there is none. */
  function FirstIndex(sep: char, s: string): (i: nat)
    ensures i <= |s|
  {
    if s == [] || s[0] == sep then 0 else 1 + FirstIndex(sep, s[1..])
  }

  /** The first `sep` of `x + [sep] + y` is the one after `x`, when `x` has none. */
  lemma {:induction false} FirstIndexAfter(sep: char, x: string, y: string)
    requires sep !in x
    ensures FirstIndex(sep, x + [sep] + y) == |x|
    decreases |x|
  {
    var s := x + [sep] + y;
    if x == [] {
      assert s[0] == sep;
    } else {
      assert s[0] == x[0];
      assert s[1..] == x[1..] + [sep] + y;
      FirstIndexAfter(sep, x[1..], y);
    }
  }

  /** A text split at the first occurrence of a separator has only one reading. */
  lemma SplitAtFirst(sep: char, x: string, y: string, x': string, y': string)
    requires sep !in x && sep !in x'
    requires x + [sep] + y == x' + [sep] + y'
    ensures x == x' && y == y'
  {
    var s := x + [sep] + y;
    FirstIndexAfter(sep, x, y);
    FirstIndexAfter(sep, x', y');
    assert x == s[..|x|] == x';
    assert y == s[|x| + 1..] == y';
  }

  /** A class name followed by `sep` and more text can be read back up to the `sep`. */
  lemma NamePrefix(sep: char, c1: ClassName, y1: string, c2: ClassName, y2: string)
    requires NamesAvoid(sep)
    requires Name(c1) + [sep] + y1 == Name(c2) + [sep] + y2
    ensures c1 == c2 && y1 == y2
  {
    SplitAtFirst(sep, Name(c1), y1, Name(c2), y2);
  }

  /** Objects of different classes never share a storage key, and one class's keys differ by id. */
  lemma KeyOfInjective(c1: ClassName, id1: string, c2: ClassName, id2: string)
    requires KeyOf(c1, id1) == KeyOf(c2, id2)
    ensures c1 == c2 && id1 == id2
  {
    NamePrefix('.', c1, id1, c2, id2);
  }

  /** `__str__` text regrouped as the opening bracket, the name, the closing bracket and the rest. */
  lemma StrRegrouped(name: string, id: string, t: string)
    ensures "[" + name + "] (" + id + ") " + t == "[" + (name + "]" + (" (" + id + ") " + t))
  {
  }

  /** The class named by `__str__` can be read back from its first bracket. */
  lemma StrNamesClass(c1: ClassName, id1: string, t1: string, c2: ClassName, id2: string, t2: string)
    requires StrOf(c1, id1, t1) == StrOf(c2, id2, t2)
    ensures c1 == c2
  {
    StrRegrouped(Name(c1), id1, t1);
    StrRegrouped(Name(c2), id2, t2);
    var x1, x2 := Name(c1) + "]" + (" (" + id1 + ") " + t1), Name(c2) + "]" + (" (" + id2 + ") " + t2);
    assert x1 == ("[" + x1)[1..] == ("[" + x2)[1..] == x2;
    NamePrefix(']', c1, " (" + id1 + ") " + t1, c2, " (" + id2 + ") " + t2);
  }

  /**
   * The state of an instance half-way through the `setattr` loop of
   * `__init__(**kwargs)`: the entries named in `done` have been applied.
   */
  ghost predicate Partial(defaults: Record, kwargs: Attrs, done: set<string>, m: Attrs)
    requires done <= kwargs.Keys
  {
    && m.Keys == defaults.Keys + (done - {ClassKey})
    && (forall k :: k in done && k != ClassKey && !IsStampKey(k) ==> m[k] == kwargs[k])
    && (CreatedKey in done ==> Parses(kwargs[CreatedKey]) && m[CreatedKey] == VTime(FromIsoFormat(kwargs[CreatedKey].s).value))
    && (UpdatedKey in done ==> Parses(kwargs[UpdatedKey]) && m[UpdatedKey] == VTime(FromIsoFormat(kwargs[UpdatedKey].s).value))
    && (forall k :: k in defaults && (k !in done || k == ClassKey) ==> m[k] == defaults[k])
  }

  /** Once every entry has been applied, the loop has built exactly what `Hydrate` describes. */
  lemma PartialComplete(defaults: Record, kwargs: Attrs, m: Attrs)
    requires |kwargs| > 0
    requires Partial(defaults, kwargs, kwargs.Keys, m)
    ensures Hydrate(defaults, kwargs) == Ok(m)
  {
    var r := Hydrate(defaults, kwargs);
    assert r.Ok?;
    HydrateValue(defaults, kwargs);
    var b := r.value;
    assert b.Keys == m.Keys;
    forall k | k in m ensures b[k] == m[k] {
      if k == CreatedKey && k in kwargs {
        assert Some(b[k].t) == FromIsoFormat(kwargs[k].s);
      } else if k == UpdatedKey && k in kwargs {
        assert Some(b[k].t) == FromIsoFormat(kwargs[k].s);
      } else if k in kwargs && k != ClassKey {
        assert b[k] == kwargs[k];
      } else {
        assert k in defaults;
      }
    }
    assert b == m;
  }

  /** Applying a timestamp entry: `setattr` of the datetime its text parses to. */
  lemma PartialStamp(defaults: Record, kwargs: Attrs, done: set<string>, m: Attrs, k: string)
    requires done <= kwargs.Keys && k in kwargs && IsStampKey(k) && Parses(kwargs[k])
    requires Partial(defaults, kwargs, done, m)
    ensures Partial(defaults, kwargs, done + {k}, m[k := VTime(FromIsoFormat(kwargs[k].s).value)])
  {
  }

  /** Applying any other entry but the tag: `setattr` of the value as given. */
  lemma PartialCopy(defaults: Record, kwargs: Attrs, done: set<string>, m: Attrs, k: string)
    requires done <= kwargs.Keys && k in kwargs && k != ClassKey && !IsStampKey(k)
    requires Partial(defaults, kwargs, done, m)
    ensures Partial(defaults, kwargs, done + {k}, m[k := kwargs[k]])
  {
  }

  /** A model instance: its class and its instance dictionary `__dict__`. */
  class BaseModel {
    const cls: ClassName
    var attrs: Record

    /** `__init__()` with no keyword arguments: a fresh id and two clock readings. */
    constructor (cls: ClassName, freshId: Uuid, created: DateTime, updated: DateTime)
      ensures this.cls == cls && attrs == Defaults(freshId, created, updated)
    {
      this.cls := cls;
      attrs := Defaults(freshId, created, updated);
    }

    /** The `for k, v in kwargs.items()` loop of `__init__`, applied to the defaults. */
    method Absorb(kwargs: Attrs) returns (err: Option<Error>)
      modifies this
      ensures match Hydrate(old(attrs), kwargs)
              case Ok(a) => err.None? && attrs == a
              case Err(e) => err == Some(e)
    {
      if |kwargs| == 0 {
        return None;
      }
      ghost var defaults := attrs;
      var todo := kwargs.Keys;
      while todo != {}
        invariant todo <= kwargs.Keys
        invariant Partial(defaults, kwargs, kwargs.Keys - todo, attrs)
        decreases |todo|
      {
        var k :| k in todo;
        ghost var done := kwargs.Keys - todo;
        todo := todo - {k};
        assert kwargs.Keys - todo == done + {k};
        var ok := SetFromKwarg(kwargs, k, defaults, done);
        if !ok {
          assert !StampParses(kwargs, k);
          return Some(ParseError);
        }
      }
      PartialComplete(defaults, kwargs, attrs);
      return None;
    }

    /** One pass of that loop: `setattr` for entry `k`, parsing a timestamp first; the tag is skipped. */
    method SetFromKwarg(kwargs: Attrs, k: string, ghost defaults: Record, ghost done: set<string>) returns (ok: bool)
      requires done <= kwargs.Keys && k in kwargs
      requires Partial(defaults, kwargs, done, attrs)
      modifies this
      ensures ok <==> !IsStampKey(k) || Parses(kwargs[k])
      ensures ok ==> Partial(defaults, kwargs, done + {k}, attrs)
    {
      if k == ClassKey {
        return true;
      } else if IsStampKey(k) {
        var v := kwargs[k];
        if !v.VStr? || FromIsoFormat(v.s).None? {
          return false;
        }
        PartialStamp(defaults, kwargs, done, attrs, k);
        attrs := attrs[k := VTime(FromIsoFormat(v.s).value)];
      } else {
        PartialCopy(defaults, kwargs, done, attrs, k);
        attrs := attrs[k := kwargs[k]];
      }
      return true;
    }

    /**
     * `cls(**kwargs)`: a new instance rebuilt from `kwargs`, or the error
     * `fromisoformat` raised on one of its timestamps.
     */
    static method Create(cls: ClassName, freshId: Uuid, created: DateTime, updated: DateTime, kwargs: Attrs)
      returns (r: Result<BaseModel, Error>)
      ensures match Hydrate(Defaults(freshId, created, updated), kwargs)
              case Ok(a) => r.Ok? && fresh(r.value) && r.value.cls == cls && r.value.attrs == a
              case Err(e) => r == Err(e)
    {
      var o := new BaseModel(cls, freshId, created, updated);
      var err := o.Absorb(kwargs);
      if err.Some? {
        return Err(err.value);
      }
      return Ok(o);
    }

    /** `reload`'s treatment of one entry: look up the class its tag names and call it on the entry. */
    static method Restore(entry: Attrs, id: Uuid, now: DateTime) returns (r: Result<BaseModel, Error>)
      ensures r.Ok? <==> Restored(entry, id, now).Ok?
      ensures r.Ok? ==> fresh(r.value) && Restored(entry, id, now).value == (r.value.cls, r.value.attrs)
      ensures r.Err? ==> Restored(entry, id, now) == Err(r.error)
    {
      if ClassKey !in entry || !entry[ClassKey].VStr? || ClassNamed(entry[ClassKey].s).None? {
        return Err(UnknownType);
      }
      r := Create(ClassNamed(entry[ClassKey].s).value, id, now, now, entry);
    }

    /** `to_dict()` */
    function ToDict(): (d: Attrs)
      reads this
      ensures d.Keys == attrs.Keys - {OrmStateKey} + {ClassKey}
      ensures d[ClassKey] == VStr(Name(cls))
      ensures forall k :: k in d && k != ClassKey ==> d[k] == Rendered(attrs[k])
    {
      DictOf(cls, attrs)
    }

    /** The key storage files this object under. */
    function Key(): (k: string)
      reads this
      ensures |k| == |Name(cls)| + 1 + |Text(attrs["id"])|
      ensures k[..|Name(cls)|] == Name(cls) && k[|Name(cls)|] == '.' && k[|Name(cls)| + 1..] == Text(attrs["id"])
    {
      KeyOf(cls, Text(attrs["id"]))
    }

    /** `str(self)`, given the text Python prints for the dictionary. */
    function Str(dictText: Attrs -> string): (s: string)
      reads this
      ensures |s| == |Name(cls)| + |Text(attrs["id"])| + 6 + |dictText(ToDict())|
      ensures s[0] == '[' && s[1..|Name(cls)| + 1] == Name(cls)
      ensures s[|s| - |dictText(ToDict())|..] == dictText(ToDict())
    {
      StrOf(cls, Text(attrs["id"]), dictText(ToDict()))
    }

    /** `save()`: stamp `updated_at` with `now`, register with storage, write the file. */
    method Save(now: DateTime, storage: FileStorage)
      modifies this, storage
      ensures attrs == old(attrs)[UpdatedKey := VTime(now)]
      ensures storage.objects == old(storage.objects)[Key() := this]
      ensures storage.file == Some(Snapshot(storage.objects))
    {
      attrs := attrs[UpdatedKey := VTime(now)];
      storage.New(this);
      storage.Save();
    }

    /** `delete()`: hand the object to storage; its own fields stay as they are. */
    method Delete(storage: FileStorage)
      modifies storage
      ensures storage.objects == old(storage.objects) - {Key()}
      ensures storage.file == old(storage.file)
    {
      storage.Delete(this);
    }
  }

  /** What `save` writes: every object's `to_dict` under its key. */
  function Snapshot(objects: map<string, BaseModel>): map<string, Attrs>
    reads objects.Values
  {
    map k | k in objects :: objects[k].ToDict()
  }

  /**
   * The JSON-file storage engine: `objects` is the in-memory mapping from
   * `"<Class>.<id>"` to instance, `file` the parsed contents of the JSON
   * document (`None` when the file does not exist).
   */
  class FileStorage {
    var objects: map<string, BaseModel>
    var file: Option<map<string, Attrs>>

    constructor (file: Option<map<string, Attrs>>)
      ensures objects == map[] && this.file == file
    {
      objects := map[];
      this.file := file;
    }

    /** `all(cls)`: the objects of class `c`, or all of them for `None`. */
    function All(c: Option<ClassName>): (r: map<string, BaseModel>)
      reads this`objects
      ensures forall k :: k in r <==> k in objects && (c.None? || objects[k].cls == c.value)
      ensures forall k :: k in r ==> r[k] == objects[k]
    {
      map k | k in objects && (c.None? || objects[k].cls == c.value) :: objects[k]
    }

    /** `new(obj)`: file `obj` under its key; `None` is ignored. */
    method New(obj: BaseModel?)
      modifies this
      ensures obj == null ==> objects == old(objects)
      ensures obj != null ==> objects == old(objects)[obj.Key() := obj]
      ensures file == old(file)
    {
      if obj != null {
        objects := objects[obj.Key() := obj];
      }
    }

    /** `save()`: overwrite the JSON document with the current objects. */
    method Save()
      modifies this
      ensures objects == old(objects)
      ensures file == Some(Snapshot(objects))
    {
      file := Some(Snapshot(objects));
    }

    /** `delete(obj)`: forget the entry under `obj`'s key; the file is not touched. */
    method Delete(obj: BaseModel?)
      modifies this
      ensures obj == null ==> objects == old(objects)
      ensures obj != null ==> objects == old(objects) - {obj.Key()}
      ensures file == old(file)
    {
      if obj != null {
        objects := objects - {obj.Key()};
      }
    }

    /**
     * `reload()`: rebuild every entry of the JSON document through the class its
     * `__class__` tag names and replace `objects` with the result. A missing file
     * changes nothing; an entry that cannot be rebuilt leaves `objects` as it was.
     * `freshId` and `now` stand for the id and clock readings each constructor draws.
     */
    method Reload(freshId: string -> Uuid, now: DateTime) returns (err: Option<Error>)
      modifies this
      ensures file == old(file)
      ensures file.None? ==> err.None? && objects == old(objects)
      ensures file.Some? ==> (err.None? <==> Loadable(file.value, freshId, now))
      ensures file.Some? && err.Some? ==> objects == old(objects) && Fails(file.value, freshId, now, err.value)
      ensures file.Some? && err.None? ==> objects.Keys == file.value.Keys
      ensures file.Some? && err.None? ==> forall k :: k in objects ==>
                Restored(file.value[k], freshId(k), now) == Ok((objects[k].cls, objects[k].attrs))
      ensures file.Some? && err.None? ==> forall k :: k in objects ==> fresh(objects[k])
    {
      if file.None? {
        return None;
      }
      var r := Load(file.value, freshId, now);
      if r.Err? {
        return Some(r.error);
      }
      objects := r.value;
      return None;
    }

    /** The loop of `reload`: every entry rebuilt into a new object, stopping at the first that raises. */
    static method Load(entries: map<string, Attrs>, freshId: string -> Uuid, now: DateTime)
      returns (r: Result<map<string, BaseModel>, Error>)
      ensures r.Ok? <==> Loadable(entries, freshId, now)
      ensures r.Err? ==> Fails(entries, freshId, now, r.error)
      ensures r.Ok? ==> r.value.Keys == entries.Keys
      ensures r.Ok? ==> forall k :: k in r.value ==>
                Restored(entries[k], freshId(k), now) == Ok((r.value[k].cls, r.value[k].attrs))
      ensures r.Ok? ==> forall k :: k in r.value ==> fresh(r.value[k])
    {
      var todo := entries.Keys;
      var loaded: map<string, BaseModel> := map[];
      while todo != {}
        invariant todo <= entries.Keys
        invariant loaded.Keys == entries.Keys - todo
        invariant forall k :: k in loaded ==> Restored(entries[k], freshId(k), now) == Ok((loaded[k].cls, loaded[k].attrs))
        invariant forall k :: k in loaded ==> fresh(loaded[k])
        decreases |todo|
      {
        var k :| k in todo;
        todo := todo - {k};
        var o := BaseModel.Restore(entries[k], freshId(k), now);
        if o.Err? {
          assert k in entries && Restored(entries[k], freshId(k), now) == Err(o.error);
          return Err(o.error);
        }
        loaded := loaded[k := o.value];
      }
      assert loaded.Keys == entries.Keys;
      return Ok(loaded);
    }
  }

  /** Every entry of `entries` can be rebuilt. */
  ghost predicate Loadable(entries: map<string, Attrs>, freshId: string -> Uuid, now: DateTime) {
    forall k :: k in entries ==> Restored(entries[k], freshId(k), now).Ok?
  }

  /** Entry `k` of `entries` cannot be rebuilt and raises `e`. */
  ghost predicate Fails(entries: map<string, Attrs>, freshId: string -> Uuid, now: DateTime, e: Error) {
    exists k :: k in entries && Restored(entries[k], freshId(k), now) == Err(e)
  }

  /**
   * What `reload` makes of one entry of the JSON document: the class its tag
   * names and the instance dictionary `cls(**entry)` builds, or the error raised.
   */
  function Restored(entry: Attrs, id: Uuid, now: DateTime): (r: Result<(ClassName, Record), Error>)
    ensures r.Ok? ==> ClassKey in entry && entry[ClassKey] == VStr(Name(r.value.0))
    ensures r.Err? && r.error == UnknownType <==>
              ClassKey !in entry || !entry[ClassKey].VStr? || ClassNamed(entry[ClassKey].s).None?
  {
    if ClassKey !in entry || !entry[ClassKey].VStr? || ClassNamed(entry[ClassKey].s).None? then Err(UnknownType)
    else match Hydrate(Defaults(id, now, now), entry)
      case Ok(a) => Ok((ClassNamed(entry[ClassKey].s).value, a))
      case Err(e) => Err(e)
  }

  /** Every entry `save` writes is rebuilt by `reload` into an object of the same class and `to_dict`. */
  lemma RestoredRoundTrip(cls: ClassName, a: Record, id: Uuid, now: DateTime)
    ensures Restored(DictOf(cls, a), id, now).Ok?
    ensures Restored(DictOf(cls, a), id, now).value.0 == cls
    ensures DictOf(cls, Restored(DictOf(cls, a), id, now).value.1) == DictOf(cls, a)
  {
    var d := DictOf(cls, a);
    RoundTrip(cls, a, id, now, now);
    var h := Hydrate(Defaults(id, now, now), d);
    assert d[ClassKey].s == Name(cls);
    assert ClassNamed(d[ClassKey].s) == Some(cls);
    assert h.Ok?;
    assert Restored(d, id, now) == Ok((cls, h.value));
  }

  /**
   * The reload scenario of the file-storage tests: after `save` and `reload`,
   * storage holds new objects under the same keys, each of the same class and
   * with the same `to_dict` as the object it replaces.
   */
  method SaveThenReload(storage: FileStorage, freshId: string -> Uuid, now: DateTime) returns (err: Option<Error>)
    modifies storage
    ensures err.None?
    ensures storage.objects.Keys == old(storage.objects.Keys)
    ensures forall k :: k in storage.objects ==>
              && fresh(storage.objects[k])
              && storage.objects[k].cls == old(storage.objects[k].cls)
              && storage.objects[k].ToDict() == old(storage.objects[k].ToDict())
  {
    storage.Save();
    var saved := storage.file.value;
    forall k | k in saved ensures Restored(saved[k], freshId(k), now).Ok? {
      RestoredRoundTrip(storage.objects[k].cls, storage.objects[k].attrs, freshId(k), now);
    }
    err := storage.Reload(freshId, now);
    forall k | k in storage.objects
      ensures storage.objects[k].cls == old(storage.objects[k].cls)
      ensures storage.objects[k].ToDict() == old(storage.objects[k].ToDict())
    {
      RestoredRoundTrip(old(storage.objects[k].cls), old(storage.objects[k].attrs), freshId(k), now);
    }
  }
}
