/**
 * The database storage engine (models/engine/db_storage.py) over an abstract
 * session. The database is the set of committed objects; the session holds the
 * objects added and deleted since the last commit. Queries see the session's
 * view, in which pending work is already in effect, as after an autoflush.
 */
module DbStorage {
  import opened Wrappers
  import opened Attributes
  import opened Models

  /** The classes `all()` queries when no class is given, in the order it queries them. */
  const MappedClasses: seq<ClassName> := [State, City, User, Place, Review, Amenity]

  /** Only these classes have tables; `BaseModel` itself is not mapped. */
  predicate Mapped(c: ClassName) {
    c != BaseModelClass
  }

  /** `all()` with no class draws from exactly the classes that have tables. */
  lemma MappedClassesComplete(c: ClassName)
    ensures c in MappedClasses <==> Mapped(c)
  {
  }

  /** The classes `all(cls)` collects: `cls` itself, or every mapped class for `None`. */
  predicate InScope(cls: Option<ClassName>, c: ClassName) {
    if cls.Some? then c == cls.value else c in MappedClasses
  }

  /** Work a session holds that has not been committed. */
  datatype Session = Session(adds: set<BaseModel>, deletes: set<BaseModel>)

  const Empty := Session({}, {})

  /** `{key: v for key, v in entries}`: a later entry wins a key it shares with an earlier one. */
  function Keyed<T>(entries: seq<(string, T)>): (r: map<string, T>)
    ensures forall k :: k in r ==> (k, r[k]) in entries
    ensures forall i :: 0 <= i < |entries| ==> entries[i].0 in r
  {
    if entries == [] then map[]
    else
      var init, last := entries[..|entries| - 1], entries[|entries| - 1];
      assert forall i :: 0 <= i < |init| ==> init[i] == entries[i];
      Keyed(init)[last.0 := last.1]
  }

  /** The last entry listed under a key is the one the dictionary keeps; other keys are untouched. */
  lemma {:induction false} KeyedLastWins<T>(entries: seq<(string, T)>, k: string, v: T)
    ensures Keyed(entries + [(k, v)]) == Keyed(entries)[k := v]
  {
    assert (entries + [(k, v)])[..|entries|] == entries;
  }

  class DBStorage {
    /** The rows in the database. */
    var committed: set<BaseModel>
    /** `__session`: `None` until `reload` runs. */
    var session: Option<Session>

    /**
     * `__init__`: connect to the database whose rows are `rows`; with
     * `HBNB_ENV` set to `"test"` every table is dropped first.
     */
    constructor (rows: set<BaseModel>, env: string)
      ensures committed == (if env == "test" then {} else rows)
      ensures session == None
    {
      committed := if env == "test" then {} else rows;
      session := None;
    }

    /** What a query through the current session sees. */
    function View(): set<BaseModel>
      reads this
      requires session.Some?
    {
      committed + session.value.adds - session.value.deletes
    }

    /** `self.__session.query(c)`: the objects of class `c` the session sees, in some order. */
    method Query(c: ClassName) returns (rows: seq<BaseModel>)
      requires session.Some? && Mapped(c)
      ensures forall o :: o in rows <==> o in View() && o.cls == c
      ensures forall i, j :: 0 <= i < j < |rows| ==> rows[i] != rows[j]
    {
      var pool := View();
      rows := [];
      while pool != {}
        invariant pool <= View()
        invariant forall o :: o in rows <==> o in View() - pool && o.cls == c
        invariant forall i, j :: 0 <= i < j < |rows| ==> rows[i] != rows[j]
        decreases |pool|
      {
        var o :| o in pool;
        pool := pool - {o};
        if o.cls == c {
          rows := rows + [o];
        }
      }
    }

    /** `all_objs`: the rows of each class of `classes`, queried one class after the other. */
    method Rows(classes: seq<ClassName>) returns (found: seq<BaseModel>)
      requires session.Some?
      requires forall n :: 0 <= n < |classes| ==> Mapped(classes[n])
      ensures forall o :: o in found <==> o in View() && o.cls in classes
    {
      found := [];
      for n := 0 to |classes|
        invariant forall o :: o in found <==> o in View() && o.cls in classes[..n]
      {
        var rows := Query(classes[n]);
        assert classes[..n + 1] == classes[..n] + [classes[n]];
        found := found + rows;
      }
      assert classes[..|classes|] == classes;
    }

    /**
     * `all(cls)`: every object of class `cls`, or of any mapped class when
     * `cls` is `None`, under its key `"<Class>.<id>"`.
     */
    method All(cls: Option<ClassName>) returns (r: map<string, BaseModel>)
      requires session.Some?
      requires cls.Some? ==> Mapped(cls.value)
      ensures forall k :: k in r ==> r[k].Key() == k && r[k] in View() && InScope(cls, r[k].cls)
      ensures forall o :: o in View() && InScope(cls, o.cls) ==> o.Key() in r
    {
      var classes := if cls.Some? then [cls.value] else MappedClasses;
      assert forall c :: c in classes <==> InScope(cls, c);
      var found := Rows(classes);
      var entries := seq(|found|, i requires 0 <= i < |found| reads found => (found[i].Key(), found[i]));
      r := Keyed(entries);
      forall k | k in r ensures r[k].Key() == k && r[k] in found {
        var i :| 0 <= i < |entries| && entries[i] == (k, r[k]);
      }
      forall o | o in found ensures o.Key() in r {
        var i :| 0 <= i < |found| && found[i] == o;
        assert entries[i].0 == o.Key();
      }
    }

    /** `new(obj)`: stage `obj` for adding; `None` is ignored. Nothing is committed. */
    method New(obj: BaseModel?)
      requires session.Some?
      requires obj != null ==> Mapped(obj.cls)
      modifies this
      ensures committed == old(committed)
      ensures obj == null ==> session == old(session)
      ensures obj != null ==> session == Some(old(session.value).(adds := old(session.value.adds) + {obj}))
    {
      if obj != null {
        session := Some(session.value.(adds := session.value.adds + {obj}));
      }
    }

    /** `save()`: commit the pending work; nothing is pending afterwards. */
    method Save()
      requires session.Some?
      modifies this
      ensures committed == old(View())
      ensures session == Some(Empty)
    {
      committed := View();
      session := Some(Empty);
    }

    /**
     * `delete(obj)`: stage the deletion of the persisted `obj` and commit at
     * once, together with anything else pending; `None` is ignored.
     */
    method Delete(obj: BaseModel?)
      requires session.Some?
      requires obj != null ==> obj in committed
      modifies this
      ensures obj == null ==> committed == old(committed) && session == old(session)
      ensures obj != null ==> committed == old(View()) - {obj} && session == Some(Empty)
      ensures obj != null && old(session) == Some(Empty) ==> |committed| == |old(committed)| - 1
    {
      if obj != null {
        session := Some(session.value.(deletes := session.value.deletes + {obj}));
        Save();
        assert old(session) == Some(Empty) ==> committed == old(committed) - {obj};
      }
    }

    /** `reload()`: a new session; whatever the previous one had pending is lost. */
    method Reload()
      modifies this
      ensures committed == old(committed)
      ensures session == Some(Empty)
    {
      session := Some(Empty);
    }

    /** `close()`: end the session; work not committed is rolled back. */
    method Close()
      requires session.Some?
      modifies this
      ensures committed == old(committed)
      ensures session == Some(Empty)
    {
      session := Some(Empty);
    }
  }

  /**
   * Staging an object with `new` and then calling `save` puts it in the
   * database: the row count of its class grows by one when it was not there.
   */
  method NewThenSave(storage: DBStorage, obj: BaseModel)
    requires storage.session == Some(Empty) && Mapped(obj.cls) && obj !in storage.committed
    modifies storage
    ensures storage.committed == old(storage.committed) + {obj}
    ensures |storage.committed| == |old(storage.committed)| + 1
    ensures storage.session == Some(Empty)
  {
    storage.New(obj);
    storage.Save();
  }
}
