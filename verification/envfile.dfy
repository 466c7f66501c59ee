/**
 The `.env` reader `loadEnv` of `check-db.js`: the file is split into lines
 at `\n`, each line at `=`, and a line whose key piece and value piece are
 both non-empty sets the trimmed key to the trimmed value. Reading the file
 is I/O; its contents arrive as a parameter, None when it cannot be read.
 */
module EnvFile {
  import opened Types
  import opened JsString
  import opened Seqs

  /** The variables read, by name. */
  type Env = map<string, string>

  /**
   The entry one line sets, if any: `const [key, value] = line.split('=')`
   keeps the first two pieces, and `key && value` skips the line when either
   is missing or empty, before any trimming.
   */
  function LineEntry(line: string): Option<(string, string)>
  {
    var pieces := Split(line, '=');
    if |pieces| < 2 || pieces[0] == "" || pieces[1] == "" then None
    else Some((Trim(pieces[0]), Trim(pieces[1])))
  }

  /**
   Storing an entry in the object: `envVars["__proto__"] = string` goes to
   the prototype setter, which ignores a non-object value, so that key is
   never stored.
   */
  function Assign(env: Env, entry: Option<(string, string)>): Env
  {
    match entry
    case None => env
    case Some((k, v)) => if k == "__proto__" then env else env[k := v]
  }

  /** The entries stored in order, each later one overriding the earlier. */
  function StoreAll(entries: seq<Option<(string, string)>>): (env: Env)
    ensures "__proto__" !in env
  {
    if |entries| == 0 then map[] else Assign(StoreAll(entries[..|entries| - 1]), entries[|entries| - 1])
  }

  /** The lines of the file read in order. */
  function LoadLines(lines: seq<string>): (env: Env)
    ensures "__proto__" !in env
  {
    StoreAll(Map(lines, LineEntry))
  }

  /** `loadEnv`: the variables of the file, or none when it cannot be read. */
  function LoadEnv(content: Option<string>): (env: Env)
    ensures content.None? ==> env == map[]
    ensures "__proto__" !in env
  {
    match content
    case None => map[]
    case Some(text) => LoadLines(Split(text, '\n'))
  }

  /** Entry `entry` sets key `k`. */
  predicate SetsKey(entry: Option<(string, string)>, k: string)
  {
    entry.Some? && entry.value.0 == k
  }

  /** Line `line` sets key `k`. */
  predicate Sets(line: string, k: string)
  {
    SetsKey(LineEntry(line), k)
  }

  /**
   A line `key=value…` with `key` and `value` free of `=` reads as the
   trimmed key and value when both are non-empty, whatever follows a second
   `=`; otherwise it is skipped.
   */
  lemma LineEntryOf(key: string, value: string, rest: string)
    requires '=' !in key && '=' !in value
    ensures LineEntry(key + "=" + value + "=" + rest)
            == if key == "" || value == "" then None else Some((Trim(key), Trim(value)))
    ensures LineEntry(key + "=" + value)
            == if key == "" || value == "" then None else Some((Trim(key), Trim(value)))
  {
    assert key + "=" + value + "=" + rest == key + ['='] + (value + ['='] + rest);
    SplitAfterFirst(key, value + ['='] + rest, '=');
    SplitAfterFirst(value, rest, '=');
    assert key + "=" + value == key + ['='] + value;
    SplitAfterFirst(key, value, '=');
    SplitWithout(value, '=');
  }

  /** A line without `=` sets nothing. */
  lemma NoSeparatorSkipped(line: string)
    requires '=' !in line
    ensures LineEntry(line) == None
  {
    SplitWithout(line, '=');
  }

  /** Storing an entry sets the key it names, unless that is `__proto__`, and changes nothing else. */
  lemma AssignSpec(env: Env, entry: Option<(string, string)>, k: string)
    ensures SetsKey(entry, k) && k != "__proto__" ==> k in Assign(env, entry) && Assign(env, entry)[k] == entry.value.1
    ensures !(SetsKey(entry, k) && k != "__proto__") ==>
              (k in Assign(env, entry) <==> k in env) && (k in env ==> Assign(env, entry)[k] == env[k])
  {
  }

  /** A line whose key piece is only whitespace is kept, under the empty key. */
  lemma BlankKeyKept(key: string, value: string)
    requires '=' !in key && '=' !in value && key != "" && value != ""
    requires AllWhitespace(key)
    ensures LineEntry(key + "=" + value) == Some(("", Trim(value)))
  {
    LineEntryOf(key, value, "");
    TrimEmptyIff(key);
  }

  /** A line whose value piece is only whitespace is kept, with the empty value. */
  lemma BlankValueKept(key: string, value: string)
    requires '=' !in key && '=' !in value && key != "" && value != ""
    requires AllWhitespace(value)
    ensures LineEntry(key + "=" + value) == Some((Trim(key), ""))
  {
    LineEntryOf(key, value, "");
    TrimEmptyIff(value);
  }

  /** A key is stored exactly when some entry sets it, `__proto__` excepted. */
  lemma {:induction false} StoreAllKeys(entries: seq<Option<(string, string)>>, k: string)
    ensures k in StoreAll(entries) <==> k != "__proto__" && exists i :: 0 <= i < |entries| && SetsKey(entries[i], k)
  {
    if |entries| > 0 {
      var p := entries[..|entries| - 1];
      StoreAllKeys(p, k);
      AssignSpec(StoreAll(p), entries[|entries| - 1], k);
      if exists i :: 0 <= i < |p| && SetsKey(p[i], k) {
        var i :| 0 <= i < |p| && SetsKey(p[i], k);
        assert entries[i] == p[i];
      }
      if exists i :: 0 <= i < |entries| && SetsKey(entries[i], k) {
        var i :| 0 <= i < |entries| && SetsKey(entries[i], k);
        if i < |p| {
          assert p[i] == entries[i];
        }
      }
    }
  }

  /** The value stored for a key is the one the last entry setting it gives. */
  lemma {:induction false} StoreAllLastWins(entries: seq<Option<(string, string)>>, k: string)
    requires k in StoreAll(entries)
    ensures exists i :: 0 <= i < |entries| && SetsKey(entries[i], k)
                        && StoreAll(entries)[k] == entries[i].value.1
                        && forall j :: i < j < |entries| ==> !SetsKey(entries[j], k)
  {
    var p, last := entries[..|entries| - 1], entries[|entries| - 1];
    AssignSpec(StoreAll(p), last, k);
    if !SetsKey(last, k) {
      StoreAllLastWins(p, k);
      var i :| 0 <= i < |p| && SetsKey(p[i], k)
               && StoreAll(p)[k] == p[i].value.1
               && forall j :: i < j < |p| ==> !SetsKey(p[j], k);
      assert entries[i] == p[i];
      assert forall j :: i < j < |entries| - 1 ==> entries[j] == p[j];
    }
  }

  /** A key is read exactly when some line sets it, `__proto__` excepted. */
  lemma LoadLinesKeys(lines: seq<string>, k: string)
    ensures k in LoadLines(lines) <==> k != "__proto__" && exists i :: 0 <= i < |lines| && Sets(lines[i], k)
  {
    var entries := Map(lines, LineEntry);
    StoreAllKeys(entries, k);
    if exists i :: 0 <= i < |entries| && SetsKey(entries[i], k) {
      var i :| 0 <= i < |entries| && SetsKey(entries[i], k);
      assert Sets(lines[i], k);
    }
  }

  /** The value read for a key is the one the last line setting it gives. */
  lemma LastLineWins(lines: seq<string>, k: string)
    requires k in LoadLines(lines)
    ensures exists i :: 0 <= i < |lines| && Sets(lines[i], k)
                        && LoadLines(lines)[k] == LineEntry(lines[i]).value.1
                        && forall j :: i < j < |lines| ==> !Sets(lines[j], k)
  {
    var entries := Map(lines, LineEntry);
    StoreAllLastWins(entries, k);
    var i :| 0 <= i < |entries| && SetsKey(entries[i], k)
             && StoreAll(entries)[k] == entries[i].value.1
             && forall j :: i < j < |entries| ==> !SetsKey(entries[j], k);
    assert Sets(lines[i], k);
  }
}
