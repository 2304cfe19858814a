/** The file-backed key/value store used outside Colab: a JSON object in a
    configuration file (`.student_email.json` by default), read, modified
    and rewritten as a whole on every change. */
module Storage {
  import opened Common

  /** What the configuration file holds. */
  datatype ConfigFile =
    | Missing                              // the file does not exist
    | Unreadable                           // it exists but does not parse as JSON
    | NotAnObject                          // it parses, but to a list, string or number
    | Stored(entries: map<string, string>) // it parses to a JSON object

  const DefaultConfigFile := ".student_email.json"
  const EmailKey := "studentEmail"

  /** `_load_config_file`: a missing or unparseable file reads as the empty
      object; a JSON value that is not an object is returned as it is, and
      every dictionary operation on it then raises (None here). */
  function LoadConfig(f: ConfigFile): (r: Option<map<string, string>>)
    ensures r.None? <==> f == NotAnObject
    ensures f.Stored? ==> r == Some(f.entries)
    ensures f == Missing || f == Unreadable ==> r == Some(map[])
  {
    match f
    case Missing => Some(map[])
    case Unreadable => Some(map[])
    case NotAnObject => None
    case Stored(m) => Some(m)
  }

  /** `load_from_storage(key)` on the file branch: `config_data.get(key)`,
      with any exception turned into None. */
  function Lookup(f: ConfigFile, key: string): (r: Option<string>)
    ensures r.Some? <==> f.Stored? && key in f.entries
    ensures r.Some? ==> r.value == f.entries[key]
  {
    match LoadConfig(f)
    case Some(m) => if key in m then Some(m[key]) else None
    case None => None
  }

  /** The file after `_save_to_file(key, value)`; None when the item
      assignment raises, which leaves the file as it was. */
  function AfterSave(f: ConfigFile, key: string, value: string): (r: Option<ConfigFile>)
    ensures r.None? <==> f == NotAnObject
    ensures r.Some? ==> r.value.Stored? && Lookup(r.value, key) == Some(value)
    ensures r.Some? ==> forall k :: k != key ==> Lookup(r.value, k) == Lookup(f, k)
  {
    match LoadConfig(f)
    case Some(m) => Some(Stored(m[key := value]))
    case None => None
  }

  /** The file after `clear_storage(key)` with a nonempty key: the key is
      popped and the object rewritten, so a missing file comes into being.
      None when `pop` raises on a non-object. */
  function AfterClearKey(f: ConfigFile, key: string): (r: Option<ConfigFile>)
    ensures r.None? <==> f == NotAnObject
    ensures r.Some? ==> r.value.Stored? && Lookup(r.value, key) == None
    ensures r.Some? ==> forall k :: k != key ==> Lookup(r.value, k) == Lookup(f, k)
  {
    match LoadConfig(f)
    case Some(m) => Some(Stored(m - {key}))
    case None => None
  }

  /** Python's truth value of the optional `key` argument of `clear_storage`. */
  predicate Truthy(key: Option<string>) {
    key.Some? && key.value != ""
  }

  /** Popping an absent key rewrites the same entries. */
  lemma ClearAbsentKeyKeepsEntries(f: ConfigFile, key: string)
    requires f.Stored? && key !in f.entries
    ensures AfterClearKey(f, key) == Some(f)
  {
    assert f.entries - {key} == f.entries;
  }

  /** Saving twice under the same key is the same as saving the second value once. */
  lemma SaveThenSave(f: ConfigFile, key: string, v1: string, v2: string)
    requires f != NotAnObject
    ensures AfterSave(f, key, v1).Some?
    ensures AfterSave(AfterSave(f, key, v1).value, key, v2) == AfterSave(f, key, v2)
  {
    var m := LoadConfig(f).value;
    assert m[key := v1][key := v2] == m[key := v2];
  }

  /** Saving a key and then clearing it leaves the other entries as they were. */
  lemma SaveThenClear(f: ConfigFile, key: string, value: string)
    requires f.Stored? && key !in f.entries
    ensures AfterSave(f, key, value).Some?
    ensures AfterClearKey(AfterSave(f, key, value).value, key) == Some(f)
  {
    assert f.entries[key := value] - {key} == f.entries;
  }

  class StorageManager {
    const configFile: string
    /** The configuration file's current content. */
    var file: ConfigFile

    constructor (configFile: string, file: ConfigFile)
      ensures this.configFile == configFile && this.file == file
    {
      this.configFile := configFile;
      this.file := file;
    }

    /** `save_to_storage` on the file branch: False when saving raises. */
    method SaveToStorage(key: string, value: string) returns (ok: bool)
      modifies this
      ensures ok <==> old(file) != NotAnObject
      ensures ok ==> Some(file) == AfterSave(old(file), key, value)
      ensures !ok ==> file == old(file)
      ensures ok ==> Lookup(file, key) == Some(value)
    {
      var config := LoadConfig(file);
      if config.None? {
        return false;
      }
      var entries := config.value[key := value];
      file := Stored(entries);
      ok := true;
    }

    /** `load_from_storage` on the file branch: None for a missing key, a
        missing or unparseable file, or a file that raises. */
    method LoadFromStorage(key: string) returns (value: Option<string>)
      ensures value == Lookup(file, key)
      ensures value.Some? ==> file.Stored? && key in file.entries
    {
      var config := LoadConfig(file);
      if config.None? {
        return None;
      }
      value := if key in config.value then Some(config.value[key]) else None;
    }

    /** `save_email_address`. */
    method SaveEmailAddress(email: string) returns (ok: bool)
      modifies this
      ensures ok <==> old(file) != NotAnObject
      ensures ok ==> Some(file) == AfterSave(old(file), EmailKey, email)
      ensures !ok ==> file == old(file)
    {
      ok := SaveToStorage(EmailKey, email);
    }

    /** `load_email_address`. */
    method LoadEmailAddress() returns (email: Option<string>)
      ensures email == Lookup(file, EmailKey)
    {
      email := LoadFromStorage(EmailKey);
    }

    /** `clear_storage(key)` on the file branch. A truthy key is popped from
        the object and the object rewritten; None or the empty string
        removes the file. `raised` when `pop` raises on a non-object, which
        `clear_storage` does not catch. */
    method ClearStorage(key: Option<string>) returns (raised: bool)
      modifies this
      ensures !Truthy(key) ==> !raised && file == Missing
      ensures Truthy(key) ==> (raised <==> old(file) == NotAnObject)
      ensures Truthy(key) && !raised ==> Some(file) == AfterClearKey(old(file), key.value)
      ensures raised ==> file == old(file)
      ensures !raised ==> forall k :: (k == key.GetOr("") || !Truthy(key)) ==> Lookup(file, k) == None
    {
      raised := false;
      if key.Some? && key.value != "" {
        var config := LoadConfig(file);
        if config.None? {
          return true;
        }
        file := Stored(config.value - {key.value});
      } else {
        file := Missing;
      }
    }
  }

  /** After clearing everything, the saved e-mail address is gone. */
  method ClearAllForgetsEmail(initial: ConfigFile, email: string)
    returns (saved: bool, loaded: Option<string>, afterClear: Option<string>)
    ensures saved <==> initial != NotAnObject
    ensures saved ==> loaded == Some(email)
    ensures afterClear == None
  {
    var store := new StorageManager(DefaultConfigFile, initial);
    saved := store.SaveEmailAddress(email);
    loaded := store.LoadEmailAddress();
    var _ := store.ClearStorage(Some(""));
    afterClear := store.LoadEmailAddress();
  }
}
