# AirBnB clone (v2): object model, storage and web/deploy helpers in Dafny

This project models the core of the AirBnB clone's data engine.

- **`BaseModel`** gives each object a fresh id and two timestamps.
  - It rebuilds an object from a keyword dictionary (`__init__(**kwargs)`). The `__class__` tag is skipped and `created_at`/`updated_at` are parsed with `fromisoformat`.
  - It serialises an object with `to_dict`, which renders datetimes with `isoformat`, adds the `__class__` tag and drops `_sa_instance_state`.
  - `save` and `delete` forward to the storage engine.
- **The JSON-file storage engine** keeps objects under `"<Class>.<id>"` and writes them with `save`. `reload` rebuilds them.
- **The database storage engine** (`DBStorage`) runs over an abstract session: the committed rows plus the adds and deletes still pending.
- **The file-storage relationship accessors:**
  - `State.cities` and `Place.reviews` filter storage by foreign key.
  - The `Place.amenities` getter and setter work over the one list `amenity_ids` that every Place shares.
- **The Flask application** of web_flask/2-c_route.py.
- **The Fabric tasks** of 100-clean_web_static.py: the names they derive, the commands they issue and the number of archives `do_clean` keeps.

The modules are:

- `Wrappers` (`Option`, `Result`).
- `IsoDateTime`: naive datetimes, `isoformat` and `fromisoformat`, and their round trip.
- `Attributes`: values, instance dictionaries, `to_dict`, the kwargs rebuild and the serialisation round trip.
- `Models`: the `BaseModel` and `FileStorage` classes.
- `Relationships`.
- `DbStorage`.
- `CRoute`.
- `CleanWebStatic`.

The main theorem is `Attributes.RoundTrip`: rebuilding an object from its `to_dict` and serialising it again gives the same dictionary. `Models.SaveThenReload` lifts it to storage.

## Model

| member | source | states |
|---|---|---|
| IsoDateTime.IsoFormat | models/base_model.py:62 | `isoformat` text is 19 characters long, or 26 when the microsecond is not zero |
| IsoDateTime.FromIsoFormat | models/base_model.py:41 | `fromisoformat` accepts only texts of 19 or 26 characters that name a valid datetime; `None` stands for the ValueError |
| IsoDateTime.ParseRender | models/base_model.py:41 | reading back the digits and separators a layout rendered gives the numbers it was given |
| IsoDateTime.IsoRoundTrip | models/base_model.py:40-41 | `fromisoformat(t.isoformat(sep)) == t` for every datetime and separator |
| Attributes.ClassNamed | models/base_model.py:66 | the class whose `__name__` is the tag, and it is the only one; no class for any other text |
| Attributes.Rendered | models/base_model.py:62 | a datetime becomes the text of `isoformat()` (separator `T`), every other value is kept, and the result is never a datetime |
| Attributes.DictOf | models/base_model.py:55-69 | `to_dict` keys are the attribute names without `_sa_instance_state`, plus `__class__` holding the class name; each value is the attribute rendered, and no value is a datetime |
| Attributes.Defaults | models/base_model.py:32-34 | a fresh object holds exactly `id`, `created_at` and `updated_at`, set to the fresh id and the two clock readings |
| Attributes.Hydrate | models/base_model.py:36-43 | `__init__(**kwargs)` succeeds unless `kwargs` is non-empty and gives a timestamp that does not parse; its only error is ParseError, as the subclasses' properties are not modelled |
| Attributes.HydrateValue | models/base_model.py:36-43 | `__init__(**kwargs)` first sets the defaults. It then copies every kwargs entry except `__class__` and the timestamps, and parses each timestamp given. Each default survives where kwargs does not replace it |
| Attributes.DictOfParses | models/base_model.py:60-65 | the timestamps `to_dict` writes are texts that `fromisoformat` reads back as the same datetimes |
| Attributes.HydrateKeys | models/base_model.py:36-43 | rebuilding from a dictionary with an id, a tag and two parseable timestamps succeeds, and keeps exactly its keys except the tag |
| Attributes.HydrateRepresentation | models/base_model.py:36-43 | rebuilding from a dictionary shaped like `to_dict(a)` gives the keys of `a` without the tag and ORM marker; timestamps equal those of `a`, and other values are `a`'s rendered |
| Attributes.RenderedIdempotent | models/base_model.py:62 | rendering a rendered value changes nothing |
| Attributes.DictOfSameRendering | models/base_model.py:55-69 | `to_dict` depends only on the class, the keys and the rendered values |
| Attributes.DictOfRendered | models/base_model.py:55-69 | `to_dict` of an object rebuilt from a representation equals `to_dict` of the original |
| Attributes.RoundTrip | models/base_model.py:36-68 | `to_dict(cls(**to_dict(o))) == to_dict(o)`, whatever id and clock readings the new object starts from; id, timestamps and every other field are preserved |
| Models.KeyOf | models/engine/db_storage.py:51 | the key is the class name, a `.`, then `str(id)` |
| Models.StrOf | models/base_model.py:73 | the text is `[`, the class name, `] (`, the id, `) ` and then the dictionary text, in that order |
| Models.KeyOfInjective | models/engine/db_storage.py:51 | two `"<Class>.<id>"` keys are equal only for the same class and the same id |
| Models.StrNamesClass | models/base_model.py:71-73 | two equal `__str__` texts name the same class |
| Models.PartialComplete | models/base_model.py:36-43 | once the `setattr` loop has applied every entry, the instance dictionary is what `__init__(**kwargs)` describes |
| Models.PartialStamp | models/base_model.py:40-41 | applying a timestamp entry sets the datetime its text parses to and keeps the loop invariant |
| Models.PartialCopy | models/base_model.py:42-43 | applying any other entry except the tag sets the value as given and keeps the loop invariant |
| Models.BaseModel.constructor | models/base_model.py:32-34 | a new object of the given class holds the fresh id and both clock readings and nothing else |
| Models.BaseModel.Absorb | models/base_model.py:36-43 | the kwargs loop leaves the dictionary `Hydrate` describes, or reports the ParseError it raises |
| Models.BaseModel.SetFromKwarg | models/base_model.py:38-43 | one pass of the loop skips the tag, sets other keys as given, and parses a timestamp, failing exactly when it does not parse |
| Models.BaseModel.Create | models/base_model.py:26-43 | `cls(**kwargs)` returns a fresh object of class `cls` holding what `__init__` describes, or the error |
| Models.BaseModel.Restore | tests/test_models/test_engine/test_file_storage.py:114-128 | an entry is rebuilt through the class its tag names; an unknown or missing tag is UnknownType; the result is a fresh object |
| Models.BaseModel.ToDict | models/base_model.py:55-69 | `to_dict` has the instance's keys without `_sa_instance_state`, plus `__class__` set to the class name; every other value is the attribute rendered |
| Models.BaseModel.Key | models/engine/db_storage.py:51 | the object's key is its class name, a `.`, then `str` of its id |
| Models.BaseModel.Str | models/base_model.py:71-73 | `str(o)` opens with `[` and the class name and ends with the text of `to_dict()` |
| Models.BaseModel.Save | models/base_model.py:45-49 | `updated_at` becomes `now`, storage files the object under its key, and the file holds the `to_dict` of every stored object |
| Models.BaseModel.Delete | models/base_model.py:51-53 | storage drops the object's key while the object's own fields are not touched |
| Models.FileStorage.constructor | tests/test_models/test_engine/test_file_storage.py:130-147 | storage starts empty, over a file that may or may not exist |
| Models.FileStorage.All | tests/test_models/test_engine/test_file_storage.py:80-86 | `all(cls)` is exactly the stored objects of class `cls`, under their keys; `all()` is every stored object |
| Models.FileStorage.New | tests/test_models/test_engine/test_file_storage.py:88-93 | `new(obj)` files `obj` under `"<Class>.<id>"`, and `None` changes nothing |
| Models.FileStorage.Save | tests/test_models/test_engine/test_file_storage.py:95-112 | the file holds the `to_dict` of each stored object under its key |
| Models.FileStorage.Delete | models/base_model.py:51-53 | the object's key is dropped, and `None` changes nothing |
| Models.FileStorage.Reload | tests/test_models/test_engine/test_file_storage.py:114-147 | with no file, nothing changes. Otherwise: if every entry can be rebuilt, objects are replaced wholesale by fresh rebuilt objects under the file's keys; if one cannot, objects stay as they were and the error reported is that entry's |
| Models.FileStorage.Load | tests/test_models/test_engine/test_file_storage.py:114-128 | the load succeeds exactly when every entry can be rebuilt. On success every key maps to a fresh object built from its entry; on failure the error is the error of some entry |
| Models.Restored | tests/test_models/test_engine/test_file_storage.py:114-128 | a rebuilt entry's tag names the class of the result, and UnknownType arises exactly when the tag is missing or names no class |
| Models.RestoredRoundTrip | tests/test_models/test_engine/test_file_storage.py:149-158 | every entry `save` writes is rebuilt into an object of the same class with the same `to_dict` |
| Models.SaveThenReload | tests/test_models/test_engine/test_file_storage.py:114-128 | after `save` then `reload`, storage holds fresh objects under the same keys, each of the same class and with the same `to_dict` as the one it replaces |
| Relationships.DistinctCount | models/state.py:28-31 | a list of distinct keys names as many keys as it has elements |
| Relationships.EnumeratesCount | models/state.py:28-31 | an iteration order of a dictionary is as long as the dictionary |
| Relationships.UnsetRefersToNone | models/state.py:28-31 | a child whose foreign key was never set reads `None`, so it belongs to a parent whose id is `None` and to no other |
| Relationships.Children | models/state.py:28-31 | the comprehension keeps exactly the objects whose foreign key, read as `None` when unset, is the parent's id, and is no longer than the dictionary |
| Relationships.ChildrenAppend | models/state.py:28-31 | the comprehension visits storage in its iteration order: two stretches of keys give the concatenation of their results |
| Relationships.ChildrenEmpty | models/state.py:28-31 | the result is empty exactly when nothing in storage refers to the parent |
| Relationships.Cities | models/state.py:25-31 | `cities` holds only stored Cities whose `state_id` (`None` when unset) is the state's id, and every such City; it is no longer than `storage.all(City)` |
| Relationships.Reviews | models/place.py:65-71 | `reviews` holds only stored Reviews whose `place_id` (`None` when unset) is the place's id, and every such Review; it is no longer than `storage.all(Review)` |
| Relationships.CitiesEmpty | models/state.py:25-31 | `cities` is empty exactly when no stored City has the state's id as its `state_id`, an unset one reading `None` |
| Relationships.Appended | models/place.py:81-83 | the setter's rule only ever appends: earlier ids stay, at most one id is added, an Amenity's id is present afterwards, and nothing but that id is new |
| Relationships.AppendedShape | models/place.py:78-83 | the setter keeps earlier ids in place and grows the list by at most one; it grows exactly for an Amenity whose id is new, and then the id is last; afterwards any Amenity's id is present |
| Relationships.AppendedNoDuplicates | models/place.py:82-83 | the shared list never gains a duplicate id |
| Relationships.AppendedIdempotent | models/place.py:82-83 | setting the same value twice has the effect of setting it once |
| Relationships.PlaceClass.constructor | models/place.py:62 | `amenity_ids` starts as the empty list |
| Relationships.PlaceClass.Amenities | models/place.py:73-76 | the getter returns the class-level `amenity_ids`, whatever place asks |
| Relationships.PlaceClass.AmenitiesShared | models/place.py:73-76 | every place's `amenities` is the same list |
| Relationships.PlaceClass.SetAmenities | models/place.py:78-83 | the setter applies the append rule to the shared list; `None` leaves it unchanged |
| Relationships.PlaceClass.SetThenGet | models/place.py:62-83 | an append made through one Place shows through every other Place |
| DbStorage.MappedClassesComplete | models/engine/db_storage.py:46-48 | `all()` queries exactly the six mapped classes State, City, User, Place, Review and Amenity |
| DbStorage.Keyed | models/engine/db_storage.py:51 | the dictionary comprehension has a key for every listed pair, and only values that were listed under that key |
| DbStorage.KeyedLastWins | models/engine/db_storage.py:51 | a later pair under a key replaces an earlier one and leaves the other keys alone |
| DbStorage.DBStorage.constructor | models/engine/db_storage.py:26-41 | with `HBNB_ENV` set to `test` the database starts empty, otherwise it keeps its rows; there is no session yet |
| DbStorage.DBStorage.Query | models/engine/db_storage.py:50 | the query lists each object of the class the session sees exactly once |
| DbStorage.DBStorage.Rows | models/engine/db_storage.py:45-50 | the accumulated list holds exactly the objects the session sees whose class is one of those queried |
| DbStorage.DBStorage.All | models/engine/db_storage.py:43-51 | every entry is filed under its own `"<Class>.<id>"` key and is of the class asked for (any mapped class for `None`); every such object the session sees is present |
| DbStorage.DBStorage.New | models/engine/db_storage.py:53-56 | `new(obj)` stages `obj` for adding without committing; `None` changes nothing |
| DbStorage.DBStorage.Save | models/engine/db_storage.py:58-60 | the database becomes what the session saw, and nothing is pending |
| DbStorage.DBStorage.Delete | models/engine/db_storage.py:62-66 | `delete(obj)` commits at once with `obj` gone. With nothing else pending the row count drops by one; `None` changes nothing |
| DbStorage.DBStorage.Reload | models/engine/db_storage.py:68-74 | a new session with nothing pending; the rows are untouched |
| DbStorage.DBStorage.Close | models/engine/db_storage.py:76-78 | pending work is dropped and the rows are untouched |
| DbStorage.NewThenSave | tests/test_models/test_engine/test_db_storage.py:76-82 | `new` then `save` adds the object to the database, and the row count grows by one |
| CRoute.ReplaceUnderscores | web_flask/2-c_route.py:21 | same length; each `_` becomes a space and every other character is kept at its position |
| CRoute.ReplaceUnderscoresClears | web_flask/2-c_route.py:21 | no `_` survives, text without `_` is returned as it is, and replacing twice is replacing once |
| CRoute.CText | web_flask/2-c_route.py:19-22 | the response is `"C "` followed by the text with each `_` at position i turned into a space at i + 2 and every other character kept; it has no `_` after the prefix and is two characters longer |
| CRoute.Respond | web_flask/2-c_route.py:9-22 | `hbnb_route` answers `Hello HBNB` and `hbnb` answers `HBNB` whatever the request, and `c_text` answers exactly `CText` of its text: `C ` followed by the text with every `_` turned into a space |
| CRoute.Match | web_flask/2-c_route.py:9-19 | a fixed rule matches exactly its path; a `<string:text>` rule matches exactly its prefix followed by one non-empty segment without `/` |
| CRoute.Route | web_flask/2-c_route.py:9-19 | a request is routed exactly when some rule in the table matches its path, and then it gets the view and captured text of the first matching rule in registration order; otherwise the result is `None` (a 404) |
| CRoute.AsWrittenHbnbUnreachable | web_flask/2-c_route.py:14-16 | with `hbnb` registered at `/` a second time, no path reaches it, and `/hbnb` is not found |
| CRoute.RootServed | web_flask/2-c_route.py:9-11 | `/` answers `Hello HBNB` |
| CRoute.IntendedRoutes | web_flask/2-c_route.py:9-22 | with `hbnb` at `/hbnb`, `/` answers `Hello HBNB`, `/hbnb` answers `HBNB`, and `/c/<text>` answers `c_text(text)` |
| CleanWebStatic.PackFilename | 100-clean_web_static.py:19-21 | the archive is `versions/web_static_<stamp>.tgz` |
| CleanWebStatic.Issued | 100-clean_web_static.py:18-25 | commands in one `try` run in order: those issued are a prefix of the list ending at the one that raised, and the block completes exactly when none raised |
| CleanWebStatic.DoPack | 100-clean_web_static.py:13-25 | `do_pack` returns the filename exactly when neither command raised, and `None` otherwise |
| CleanWebStatic.AfterLastSlash | 100-clean_web_static.py:39 | the basename is the suffix after the last `/` and contains no `/`; a path without `/` is its own basename |
| CleanWebStatic.BeforeFirstDot | 100-clean_web_static.py:40 | the archive name is the prefix before the first `.` and contains no `.`; a name without `.` is kept whole |
| CleanWebStatic.DeployPaths | 100-clean_web_static.py:39-43 | `rel_path` is `/data/web_static/releases/<archive_name>/` and `tmp_path` is `/tmp/<basename>` |
| CleanWebStatic.DeployCommands | 100-clean_web_static.py:45-54 | eight commands, the upload first and the link to the release last |
| CleanWebStatic.DoDeploy | 100-clean_web_static.py:28-58 | a missing archive issues nothing and returns False. Otherwise the commands issued are a non-empty prefix of the eight, and the result is True exactly when all eight ran without raising |
| CleanWebStatic.AfterLastSlashOf | 100-clean_web_static.py:39 | behind a path ending in `/`, a name without `/` is the basename |
| CleanWebStatic.BeforeFirstDotOf | 100-clean_web_static.py:40 | a name without `.` followed by an extension starting with `.` is the archive name |
| CleanWebStatic.PackBasename | 100-clean_web_static.py:19-21 | the basename of a packed archive is `web_static_<stamp>.tgz` |
| CleanWebStatic.PackArchiveName | 100-clean_web_static.py:40 | the archive name of `web_static_<stamp>.tgz` is `web_static_<stamp>` |
| CleanWebStatic.DeployPackedArchive | 100-clean_web_static.py:19-43 | for a stamp without `.` or `/`, deploying the packed archive gives the archive name `web_static_<stamp>` and its release directory |
| CleanWebStatic.Deploy | 100-clean_web_static.py:61-69 | a failed pack issues no deploy command and returns False; otherwise `deploy` is `do_deploy` of the packed filename |
| CleanWebStatic.DeployLinksRelease | 100-clean_web_static.py:61-69 | a successful `deploy` issues all eight commands and ends by linking `current` to the release of the new archive |
| CleanWebStatic.KeepCount | 100-clean_web_static.py:77 | at least one archive is kept; a number of 2 or more is kept as given, and anything smaller counts as 1 |
| CleanWebStatic.CleanCommands | 100-clean_web_static.py:77-89 | the same pruning pipeline runs locally in `versions`, then remotely in the releases directory, with the normalised count |
| CleanWebStatic.DoClean | 100-clean_web_static.py:79-91 | the local pruning is always issued; the remote one is issued exactly when the local one did not raise; the error is swallowed |
| CleanWebStatic.CleanKeepsNewest | 100-clean_web_static.py:80-89 | the newest `keep` archives survive and every older one is deleted. Any non-empty listing keeps its newest archive; with number 0 or 1 all but the newest go |

## Left out

- models/engine/file_storage.py is not part of this model. `Models.FileStorage` is reconstructed from the storage tests:
  - an exact-class filter;
  - `reload` replaces the objects wholesale;
  - a missing file changes nothing.
  - An entry that cannot be rebuilt leaves the objects as they were. This choice is the model's own; the code may differ.
  - Its `close` is not modelled.
  - Models.FileStorage.constructor: each instance has its own `objects`, where the application keeps one process-wide mapping behind `models.storage`. The model does not capture that two storage objects share it.
- The JSON file is held as the map it parses to. JSON encoding and decoding are taken as lossless, and file I/O is not modelled.
- SQLAlchemy and MySQL are not modelled: `create_engine`, `create_all`/`drop_all`, `scoped_session`, autoflush timing, commit failures, and the cascades declared with `relationship`. The session is a set of committed rows plus pending adds and deletes, and queries see pending work as if flushed.
- DbStorage.DBStorage.New and DbStorage.DBStorage.All: require a mapped class, because `BaseModel` itself has no table and the session would refuse it.
- DbStorage.DBStorage.Delete: requires a persisted object, as SQLAlchemy does for `session.delete`. Deleting an object that was only staged is not modelled.
- The `HBNB_TYPE_STORAGE` switch is not modelled. The accessors are modelled in the file-storage branch only; the relationship branch is SQLAlchemy's.
- uuid4 and the clocks are not modelled. Ids and clock readings are parameters: `freshId`, `created`, `updated` and `now`.
- Models.Restored: gives both timestamps of a rebuilt object the one clock reading `now`. Those defaults are overwritten whenever the entry has its own timestamps, as saved entries do.
- IsoDateTime.FromIsoFormat: accepts only the two forms `isoformat` writes: 19 characters, or 26 with microseconds.
  - The character at index 10 may be any separator.
  - Offsets, shorter fractions and other forms Python accepts are not modelled.
  - A non-string timestamp is the same ParseError as a bad string, where Python raises a TypeError.
- Floats (latitude, longitude) are kept as opaque `repr` text. Values are compared structurally, not with Python's `==`.
- `str()` of a dictionary is a parameter of `Models.BaseModel.Str`; Python's dict formatting is not modelled.
- Dictionary iteration order is the parameter `order` of the relationship accessors.
- Models.BaseModel.Save: does not model that `save` reads `datetime.now()` while construction reads `utcnow()`. No ordering between the timestamps is claimed.
- Instance attributes that shadow the class-level `amenity_ids` are not modelled. Every Place reads the one shared list.
- Relationships.PlaceClass.Amenities: returns the list as a value. In Python the getter hands out the list object itself, so a caller that appends to the result changes `amenity_ids`; the model does not capture that aliasing.
- Attributes.Hydrate: sets every kwargs key as a plain attribute. The subclasses' properties are not modelled:
  - in the file-storage branch, `setattr` of `cities` on a State (models/state.py:24-31) or `reviews` on a Place (models/place.py:65-71) raises AttributeError, since those properties have no setter, where the model stores the value;
  - `setattr` of `amenities` on a Place runs the setter (models/place.py:78-83), which appends to `amenity_ids` and adds nothing to `__dict__`, where the model stores the value under `amenities`.
  - Dictionaries written by `to_dict` never hold these keys, so the round trip is not affected.
- Flask and Werkzeug are not modelled. Rule matching is first match in registration order, and a `string` converter takes one non-empty segment without `/`. web_flask/0-hello_route.py and 7-states_list.py are not modelled, and neither is the server itself.
- CleanWebStatic.DoPack: `failed` stands for a command raising an `Exception` that `except Exception` catches, as with Fabric's `env.abort_exception` set. By default a failing Fabric 1 command calls `abort()`, which raises SystemExit; that escapes the `try` and stops the task, and that path is not modelled.
- CleanWebStatic.DoDeploy: the same holds for a failing `put` or `run`: the default SystemExit path, which stops the task instead of returning False, is not modelled.
- CleanWebStatic.DoClean: the same holds here: with the default SystemExit, the failure is not swallowed.
- Fabric's `local`, `run` and `put`, `path.isfile`, the remote hosts and `strftime` are not modelled:
  - commands are their text;
  - which command raises is an input;
  - the file's existence is an input;
  - the timestamp text is an input.
- The "New version deployed!" message printed by `do_deploy` is not modelled.
- CleanWebStatic.KeepCount: takes `number` as an integer. Given on the Fabric command line, `number` arrives as text, and `number >= 2` would raise a TypeError outside the `try`.
- The console (console.py) is not part of this model.

## Findings

| source | as written | input that shows it | evidently intended | confidence | as-written member | corrected member |
|---|---|---|---|---|---|---|
| web_flask/2-c_route.py:14 | `hbnb` is registered at `/`, which `hbnb_route` already serves, so it can never be reached | a request for `/hbnb` is not found, and `/` always answers `Hello HBNB` | `hbnb` served at `/hbnb`, as in web_flask/1-hbnb_route.py | not executed | CRoute.AsWrittenHbnbUnreachable | CRoute.IntendedRoutes |
