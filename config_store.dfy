/** The workspace configuration file `.vscode/flavorcode.config.json`: a JSON
    object read and written whole. A key can be read or written only when it
    is already there with a truthy value, so no key is ever added, and a key
    once set to a falsy value can be neither read nor written again.

    The file system and JSON text are abstracted: the file is the parsed
    object it holds, or nothing when it does not exist. */
module ConfigStore {
  import opened Outcomes

  const NoFolderOpen := "No folder open"

  /** A JSON value as `JSON.parse` yields it; arrays and objects are kept as
      their text, since only their truthiness matters here. */
  datatype Json = JNull | JBool(b: bool) | JNum(n: int) | JStr(s: string) | JStructured(text: string)

  /** JavaScript truthiness: `null`, `false`, `0` and `""` are falsy. */
  predicate Truthy(v: Json) {
    match v
    case JNull => false
    case JBool(b) => b
    case JNum(n) => n != 0
    case JStr(s) => s != ""
    case JStructured(_) => true
  }

  /** A parsed configuration object. */
  type Config = map<string, Json>

  function GetFailure(key: string): string {
    "Unable to get " + key + ": not in config"
  }

  function SetFailure(key: string): string {
    "Unable to set " + key + ": not in config"
  }

  /** The object `initConfigJson` yields: the workspace file when it exists,
      otherwise the bundled template, which is copied there. */
  function Source(file: Option<Config>, template: Config): (m: Config)
    ensures file.Some? ==> m == file.value
    ensures file.None? ==> m == template
  {
    file.GetOr(template)
  }

  /** `getconfig`'s check and lookup: the value of a key present with a truthy
      value; otherwise the "not in config" error. */
  function Get(m: Config, key: string): (r: Result<Json>)
    ensures r.Ok? <==> key in m && Truthy(m[key])
    ensures r.Ok? ==> r.value == m[key] && Truthy(r.value)
    ensures r.Threw? ==> r.message == GetFailure(key)
  {
    if key in m && Truthy(m[key]) then Ok(m[key]) else Threw(GetFailure(key))
  }

  /** `setconfig`'s check and assignment: only a key present with a truthy
      value is replaced; the set of keys and every other value stay as they
      were. */
  function Put(m: Config, key: string, value: Json): (r: Result<Config>)
    ensures r.Ok? <==> key in m && Truthy(m[key])
    ensures r.Ok? ==> r.value.Keys == m.Keys && r.value[key] == value
    ensures r.Ok? ==> forall k :: k in m && k != key ==> r.value[k] == m[k]
    ensures r.Threw? ==> r.message == SetFailure(key)
  {
    if key in m && Truthy(m[key]) then Ok(m[key := value]) else Threw(SetFailure(key))
  }

  /** A truthy value written to a key reads back. */
  lemma PutThenGet(m: Config, key: string, value: Json)
    requires Put(m, key, value).Ok? && Truthy(value)
    ensures Get(Put(m, key, value).value, key) == Ok(value)
  {
  }

  /** Writing `""`, `0`, `false` or `null` locks the key: afterwards neither
      read nor write of it succeeds. */
  lemma FalsyValueLocksKey(m: Config, key: string, value: Json, later: Json)
    requires Put(m, key, value).Ok? && !Truthy(value)
    ensures Get(Put(m, key, value).value, key) == Threw(GetFailure(key))
    ensures Put(Put(m, key, value).value, key, later) == Threw(SetFailure(key))
  {
  }

  /** A write to one key does not change what any other key reads. */
  lemma PutKeepsOtherReads(m: Config, key: string, value: Json, other: string)
    requires Put(m, key, value).Ok? && other != key
    ensures Get(Put(m, key, value).value, other) == Get(m, other)
  {
  }

  /** A sequence of writes never adds a key: whatever writes succeed, the keys
      stay those of the starting object. */
  function PutAll(m: Config, writes: seq<(string, Json)>): (r: Config)
    decreases |writes|
  {
    if writes == [] then m
    else
      var next := Put(m, writes[0].0, writes[0].1);
      PutAll(if next.Ok? then next.value else m, writes[1..])
  }

  lemma {:induction false} PutAllKeepsKeys(m: Config, writes: seq<(string, Json)>)
    ensures PutAll(m, writes).Keys == m.Keys
    decreases |writes|
  {
    if writes != [] {
      var next := Put(m, writes[0].0, writes[0].1);
      PutAllKeepsKeys(if next.Ok? then next.value else m, writes[1..]);
    }
  }

  /** The workspace and its configuration file. */
  class WorkspaceConfig {
    /** Whether a workspace folder is open. */
    const folderOpen: bool
    /** The bundled template `resources/flavorcode.config.json`. */
    const template: Config
    /** The workspace file, None while it does not exist. */
    var file: Option<Config>

    constructor (folderOpen: bool, template: Config, file: Option<Config>)
      ensures this.folderOpen == folderOpen && this.template == template && this.file == file
    {
      this.folderOpen := folderOpen;
      this.template := template;
      this.file := file;
    }

    /** `initConfigJson`: without a folder, "No folder open". Otherwise the
        existing file is read as it is, or, when there is none, the template
        is copied there first (never over an existing file) and read. */
    method InitConfigJson() returns (r: Result<Config>)
      modifies this
      ensures !folderOpen ==> r == Threw(NoFolderOpen) && file == old(file)
      ensures folderOpen ==> r == Ok(Source(old(file), template)) && file == Some(Source(old(file), template))
      ensures old(file).Some? ==> file == old(file)
    {
      if !folderOpen {
        return Threw(NoFolderOpen);
      }
      if file.None? {
        file := Some(template);
      }
      r := Ok(file.value);
    }

    /** `getconfig`: the value of a key present with a truthy value. Reading
        may create the file from the template. */
    method GetConfig(key: string) returns (r: Result<Json>)
      modifies this
      ensures !folderOpen ==> r == Threw(NoFolderOpen) && file == old(file)
      ensures folderOpen ==> r == Get(Source(old(file), template), key) && file == Some(Source(old(file), template))
    {
      var raw := InitConfigJson();
      if raw.Threw? {
        return Threw(raw.message);
      }
      var m := raw.value;
      if !(key in m && Truthy(m[key])) {
        return Threw(GetFailure(key));
      }
      r := Ok(m[key]);
    }

    /** `setconfig`: with a folder open, rewrites the file with the key
        replaced when it is present with a truthy value; otherwise the file is
        left as `initConfigJson` made it. Values are strings or numbers. */
    method SetConfig(key: string, value: Json) returns (r: Result<()>)
      requires value.JStr? || value.JNum?
      modifies this
      ensures !folderOpen ==> r == Threw(NoFolderOpen) && file == old(file)
      ensures folderOpen ==>
        var put := Put(Source(old(file), template), key, value);
        && (r.Ok? <==> put.Ok?)
        && (put.Threw? ==> r == Threw(put.message) && file == Some(Source(old(file), template)))
        && (put.Ok? ==> file == Some(put.value))
    {
      if !folderOpen {
        return Threw(NoFolderOpen);
      }
      var raw := InitConfigJson();
      var m := raw.value;
      if !(key in m && Truthy(m[key])) {
        return Threw(SetFailure(key));
      }
      m := m[key := value];
      file := Some(m);
      r := Ok(());
    }
  }
}
