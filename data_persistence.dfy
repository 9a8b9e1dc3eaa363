/** The save/load bookkeeping of
    Assets/Game/Scripts/Core/DataPersistence/DataPersistenceModule.cs: file-name
    normalisation, the per-type object cache, and the mode, key and serializer
    settings. The data directory is a map from path to stored text; what the
    serializer and the cipher turn an object into is a parameter. */
module Persistence {
  import opened Wrappers
  import opened Text

  /** A `System.Type` used as cache key (`typeof(T)`), known by its `Name`. */
  type TypeTag(==, !new)
  /** A non-null data object. */
  type Datum(==, !new)
  /** A user-supplied `IDataSerializer`. */
  type SerializerRef(==, !new)

  /** `EncryptionMode`; the source's `None` is `Unencrypted` here. */
  datatype EncryptionMode = Unencrypted | Simple | Advanced

  datatype Serializer = Json | Custom(ref: SerializerRef)

  const Extension: string := ".dat"
  const DefaultKey: string := "DefaultKey"

  /** `GetFileName<T>(fileName)`. */
  function GetFileName(typeName: string, fileName: Option<string>): (r: string)
    ensures EndsWith(r, Extension)
    ensures fileName.None? || fileName.value == "" ==> r == typeName + Extension
    ensures fileName.Some? && EndsWith(fileName.value, Extension) ==> r == fileName.value
    ensures fileName.Some? && fileName.value != "" && !EndsWith(fileName.value, Extension) ==>
      r == fileName.value + Extension
  {
    if fileName.None? || fileName.value == "" then
      assert (typeName + Extension)[|typeName|..] == Extension;
      typeName + Extension
    else if EndsWith(fileName.value, Extension) then fileName.value
    else
      assert (fileName.value + Extension)[|fileName.value|..] == Extension;
      fileName.value + Extension
  }

  /** A name that went through `GetFileName` comes back unchanged, whatever the type. */
  lemma GetFileNameIdempotent(typeName: string, otherType: string, fileName: Option<string>)
    ensures GetFileName(otherType, Some(GetFileName(typeName, fileName))) == GetFileName(typeName, fileName)
  {
  }

  /** `Path.Combine(dir, file)` with `/` as the separator: a rooted `file` wins,
      otherwise the two are joined by exactly one separator. A null directory throws. */
  function Combine(dir: Option<string>, file: string): (r: Option<string>)
    ensures r.None? <==> dir.None?
    ensures r.Some? && file != [] && file[0] == '/' ==> r.value == file
    ensures r.Some? && (file == [] || file[0] != '/') ==> EndsWith(r.value, file) && StartsWith(r.value, dir.value)
  {
    if dir.None? then None
    else if file != [] && file[0] == '/' then Some(file)
    else if dir.value == [] || EndsWith(dir.value, "/") then
      assert (dir.value + file)[|dir.value|..] == file;
      assert (dir.value + file)[..|dir.value|] == dir.value;
      Some(dir.value + file)
    else
      assert (dir.value + "/" + file)[|dir.value| + 1..] == file;
      assert (dir.value + "/" + file)[..|dir.value|] == dir.value;
      Some(dir.value + "/" + file)
  }

  /** The module's state. */
  datatype Store = Store(
    cache: map<TypeTag, Datum>,
    files: map<string, string>,
    dataPath: Option<string>,
    mode: EncryptionMode,
    key: string,
    serializer: Option<Serializer>)

  /** The field initialisers: no data path and no serializer until `OnInitialize`. */
  const Fresh: Store := Store(map[], map[], None, Simple, DefaultKey, None)

  /** `OnInitialize`, given `Application.persistentDataPath`. */
  function Initialize(s: Store, persistentDataPath: string): (r: Store)
    ensures r.dataPath == Some(persistentDataPath + "/Data/") && r.serializer == Some(Json)
    ensures r.cache == s.cache && r.files == s.files && r.mode == s.mode && r.key == s.key
  {
    s.(dataPath := Some(persistentDataPath + "/Data/"), serializer := Some(Json))
  }

  /** `SetSerializer`: a null serializer selects the JSON one. */
  function SetSerializer(s: Store, serializer: Option<Serializer>): (r: Store)
    ensures r.serializer == Some(serializer.GetOr(Json))
    ensures r == s.(serializer := r.serializer)
  {
    s.(serializer := Some(if serializer.Some? then serializer.value else Json))
  }

  /** `SetEncryptionMode`: the mode is always set, the key only when non-empty. */
  function SetEncryptionMode(s: Store, mode: EncryptionMode, key: Option<string>): (r: Store)
    ensures r.mode == mode
    ensures r.key == (if key.Some? && key.value != "" then key.value else s.key)
    ensures r == s.(mode := mode, key := r.key)
  {
    if key.Some? && key.value != "" then s.(mode := mode, key := key.value) else s.(mode := mode)
  }

  /** `SaveDataAsync<T>(data, fileName)`. `encoded` is the text the serializer and,
      unless the mode is `Unencrypted`, the cipher produce for `data`; None when one of
      them or the write throws. Every failure is caught and leaves the state as it was. */
  function Save(s: Store, t: TypeTag, typeName: string, data: Option<Datum>, fileName: Option<string>,
                encoded: Option<string>): (r: Store)
    ensures data.None? ==> r == s
    ensures data.Some? && s.dataPath.Some? && s.serializer.Some? && encoded.Some? ==>
      && r.cache == s.cache[t := data.value]
      && r.files == s.files[Combine(s.dataPath, GetFileName(typeName, fileName)).value := encoded.value]
      && r == s.(cache := r.cache, files := r.files)
    ensures s.dataPath.None? || s.serializer.None? || encoded.None? ==> r == s
  {
    if data.None? then s
    else
      var path := Combine(s.dataPath, GetFileName(typeName, fileName));
      if path.None? || s.serializer.None? || encoded.None? then s
      else s.(cache := s.cache[t := data.value], files := s.files[path.value := encoded.value])
  }

  /** What decrypting and deserialising a stored text gives. */
  datatype Decoded = Decoded(value: Datum) | DecodedNull | DecodeThrew

  /** `LoadDataAsync<T>(fileName)`: the object returned and the new state. `decode`
      decrypts and deserialises a stored text; `created` is the object `new T()` makes. */
  function Load(s: Store, t: TypeTag, typeName: string, fileName: Option<string>,
                decode: string -> Decoded, created: Datum): (r: (Datum, Store))
    ensures t in s.cache ==> r == (s.cache[t], s)
    ensures r.1 == s.(cache := s.cache[t := r.0])
    ensures t !in s.cache ==>
      var path := Combine(s.dataPath, GetFileName(typeName, fileName));
      r.0 == (if path.Some? && path.value in s.files && s.serializer.Some? && decode(s.files[path.value]).Decoded?
              then decode(s.files[path.value]).value else created)
  {
    if t in s.cache then (s.cache[t], s)
    else
      var path := Combine(s.dataPath, GetFileName(typeName, fileName));
      var d :=
        if path.None? then created                              // Path.Combine throws
        else if path.value !in s.files then created             // no file: a new instance
        else if s.serializer.None? then created                 // no serializer: throws
        else match decode(s.files[path.value])
          case Decoded(v) => v
          case DecodedNull => created                           // null result: a new instance
          case DecodeThrew => created;                          // caught: a new instance
      (d, s.(cache := s.cache[t := d]))
  }

  /** `DeleteData<T>(fileName)`: whether a file was deleted, and the new state. */
  function Delete(s: Store, t: TypeTag, typeName: string, fileName: Option<string>): (r: (bool, Store))
    ensures var path := Combine(s.dataPath, GetFileName(typeName, fileName));
      r.0 <==> path.Some? && path.value in s.files
    ensures r.0 ==> r.1 == s.(files := s.files - {Combine(s.dataPath, GetFileName(typeName, fileName)).value},
                              cache := s.cache - {t})
    ensures !r.0 ==> r.1 == s
  {
    var path := Combine(s.dataPath, GetFileName(typeName, fileName));
    if path.Some? && path.value in s.files then (true, s.(files := s.files - {path.value}, cache := s.cache - {t}))
    else (false, s)
  }

  /** `GetCachedData<T>()`. */
  function GetCachedData(s: Store, t: TypeTag): (r: Option<Datum>)
    ensures r.Some? <==> t in s.cache
    ensures r.Some? ==> r.value == s.cache[t]
  {
    if t in s.cache then Some(s.cache[t]) else None
  }

  /** `ClearCache`. */
  function ClearCache(s: Store): (r: Store)
    ensures r.cache == map[] && r == s.(cache := map[])
  {
    s.(cache := map[])
  }

  /** `OnShutdown`: the cache is emptied and the serializer dropped. */
  function Shutdown(s: Store): (r: Store)
    ensures r.cache == map[] && r.serializer.None? && r == s.(cache := map[], serializer := None)
  {
    ClearCache(s).(serializer := None)
  }

  /** Whatever path a load takes, it returns the object it leaves cached for the type,
      and a second load of the type returns the same object from the cache, whatever
      file name it names, without reading a file. */
  lemma LoadCaches(s: Store, t: TypeTag, typeName: string, f1: Option<string>, f2: Option<string>,
                   decode: string -> Decoded, created: Datum, created2: Datum)
    ensures var (d, s1) := Load(s, t, typeName, f1, decode, created);
      GetCachedData(s1, t) == Some(d) && Load(s1, t, typeName, f2, decode, created2) == (d, s1)
  {
  }

  /** A successful save makes every later load of the type, under any file name,
      return the saved object untouched. */
  lemma SaveThenLoad(s: Store, t: TypeTag, typeName: string, d: Datum, f1: Option<string>, f2: Option<string>,
                     text: string, decode: string -> Decoded, created: Datum)
    requires s.dataPath.Some? && s.serializer.Some?
    ensures var s1 := Save(s, t, typeName, Some(d), f1, Some(text));
      Load(s1, t, typeName, f2, decode, created) == (d, s1)
  {
  }

  /** Deleting a type's file drops its cached object, so the next load of that file
      name finds no file and returns a new instance. */
  lemma DeleteThenLoad(s: Store, t: TypeTag, typeName: string, f: Option<string>,
                       decode: string -> Decoded, created: Datum)
    requires Delete(s, t, typeName, f).0
    ensures Load(Delete(s, t, typeName, f).1, t, typeName, f, decode, created).0 == created
  {
  }

  /** A failed delete changes nothing; a repeated delete of the same name reports false. */
  lemma DeleteTwice(s: Store, t: TypeTag, typeName: string, f: Option<string>)
    ensures !Delete(Delete(s, t, typeName, f).1, t, typeName, f).0
  {
  }
}

/** The module as a mutable object; every method is its `Store` function. */
module DataPersistence {
  import opened Wrappers
  import opened Persistence

  class DataPersistenceModule {
    var cache: map<TypeTag, Datum>
    var files: map<string, string>
    var dataPath: Option<string>
    var mode: EncryptionMode
    var key: string
    var serializer: Option<Serializer>

    function State(): (s: Store)
      reads this
      ensures s.cache == cache && s.files == files && s.dataPath == dataPath
      ensures s.mode == mode && s.key == key && s.serializer == serializer
    {
      Store(cache, files, dataPath, mode, key, serializer)
    }

    constructor (files: map<string, string>)
      ensures State() == Fresh.(files := files)
    {
      cache := map[];
      this.files := files;
      dataPath := None;
      mode := Simple;
      key := DefaultKey;
      serializer := None;
    }

    method OnInitialize(persistentDataPath: string)
      modifies this
      ensures State() == Initialize(old(State()), persistentDataPath)
    {
      dataPath := Some(persistentDataPath + "/Data/");
      serializer := Some(Json);
    }

    method SetSerializer(s: Option<Serializer>)
      modifies this
      ensures State() == Persistence.SetSerializer(old(State()), s)
    {
      serializer := Some(s.GetOr(Json));
    }

    method SetEncryptionMode(mode: EncryptionMode, key: Option<string>)
      modifies this
      ensures State() == Persistence.SetEncryptionMode(old(State()), mode, key)
    {
      this.mode := mode;
      if key.Some? && key.value != "" {
        this.key := key.value;
      }
    }

    method SaveData(t: TypeTag, typeName: string, data: Option<Datum>, fileName: Option<string>, encoded: Option<string>)
      modifies this
      ensures State() == Save(old(State()), t, typeName, data, fileName, encoded)
    {
      if data.None? {
        return;
      }
      var file := GetFileName(typeName, fileName);
      var path := Combine(dataPath, file);
      if path.None? || serializer.None? || encoded.None? {
        return;
      }
      files := files[path.value := encoded.value];
      cache := cache[t := data.value];
    }

    method LoadData(t: TypeTag, typeName: string, fileName: Option<string>, decode: string -> Decoded, created: Datum)
      returns (d: Datum)
      modifies this
      ensures (d, State()) == Load(old(State()), t, typeName, fileName, decode, created)
    {
      if t in cache {
        return cache[t];
      }
      var file := GetFileName(typeName, fileName);
      var path := Combine(dataPath, file);
      if path.None? {
        d := created;
      } else if path.value !in files {
        d := created;
      } else if serializer.None? {
        d := created;
      } else {
        var decoded := decode(files[path.value]);
        d := if decoded.Decoded? then decoded.value else created;
      }
      cache := cache[t := d];
    }

    method DeleteData(t: TypeTag, typeName: string, fileName: Option<string>) returns (deleted: bool)
      modifies this
      ensures (deleted, State()) == Delete(old(State()), t, typeName, fileName)
    {
      var file := GetFileName(typeName, fileName);
      var path := Combine(dataPath, file);
      if path.Some? && path.value in files {
        files := files - {path.value};
        cache := cache - {t};
        return true;
      }
      return false;
    }

    function GetCachedData(t: TypeTag): (r: Option<Datum>)
      reads this
      ensures r == Persistence.GetCachedData(State(), t)
    {
      if t in cache then Some(cache[t]) else None
    }

    method ClearCache()
      modifies this
      ensures State() == Persistence.ClearCache(old(State()))
    {
      cache := map[];
    }

    method OnShutdown()
      modifies this
      ensures State() == Shutdown(old(State()))
    {
      ClearCache();
      serializer := None;
    }
  }
}
