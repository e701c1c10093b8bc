/**
 * The `.env` update of server/index.js (`POST /api/config`): the file is read as its
 * non-blank lines, `updateEnvVar(name, value)` rewrites the first line starting with
 * `name=` or appends one, and the lines are written back joined with newlines plus a
 * final newline. The process environment receives the same values.
 */
module DotEnv {
  import opened Wrappers
  import opened JsString
  import opened Environment

  const NewLine: char := '\n'

  /**
   * `parts.filter(line => line.trim() !== '')`; a line trims to '' exactly when it is
   * all white space (`TrimEmptyIff`).
   */
  function NonBlank(parts: seq<string>): (r: seq<string>)
    ensures |r| <= |parts|
    ensures forall k :: 0 <= k < |r| ==> r[k] in parts && !AllSpace(r[k])
  {
    if parts == [] then []
    else (if !AllSpace(parts[0]) then [parts[0]] else []) + NonBlank(parts[1..])
  }

  /** `content.split('\n').filter(line => line.trim() !== '')` */
  function EnvLines(content: string): seq<string> {
    NonBlank(Split(content, NewLine))
  }

  /** The line `name=value`. */
  function Entry(name: string, value: string): string {
    name + "=" + value
  }

  /** The index of the first line that starts with `prefix`, if any. */
  function FirstWith(lines: seq<string>, prefix: string): (r: Option<nat>)
    ensures r.Some? ==> r.value < |lines| && StartsWith(lines[r.value], prefix)
    ensures r.Some? ==> forall k :: 0 <= k < r.value ==> !StartsWith(lines[k], prefix)
    ensures r.None? ==> forall k :: 0 <= k < |lines| ==> !StartsWith(lines[k], prefix)
  {
    if lines == [] then None
    else if StartsWith(lines[0], prefix) then Some(0)
    else match FirstWith(lines[1..], prefix)
      case None => None
      case Some(i) => Some(i + 1)
  }

  /** The lines after `updateEnvVar(name, value)`. */
  function Updated(lines: seq<string>, name: string, value: string): (r: seq<string>)
    ensures |lines| <= |r| <= |lines| + 1
    ensures Entry(name, value) in r
  {
    match FirstWith(lines, name + "=")
    case Some(i) =>
      var r := lines[i := Entry(name, value)];
      assert r[i] == Entry(name, value);
      r
    case None => lines + [Entry(name, value)]
  }

  /** The lines of the `.env` file, as the handler holds them (`envVars`). */
  class EnvFile {
    var lines: seq<string>

    /** Reads the file's content (empty when the file does not exist). */
    constructor (content: string)
      ensures lines == EnvLines(content)
    {
      lines := EnvLines(content);
    }

    /** `updateEnvVar(name, value)` */
    method Update(name: string, value: string)
      modifies this
      ensures lines == Updated(old(lines), name, value)
    {
      var prefix := name + "=";
      var i := 0;
      while i < |lines|
        invariant 0 <= i <= |lines|
        invariant forall k :: 0 <= k < i ==> !StartsWith(lines[k], prefix)
      {
        if StartsWith(lines[i], prefix) {
          FirstAt(lines, prefix, i);
          lines := lines[i := Entry(name, value)];
          return;
        }
        i := i + 1;
      }
      FirstAt(lines, prefix, |lines|);
      lines := lines + [Entry(name, value)];
    }

    /** `envVars.join('\n') + '\n'`, the text written back. */
    function Text(): string
      reads this
    {
      Join(lines, [NewLine]) + [NewLine]
    }
  }

  /** A line with a leading segment none of which starts with `prefix` finds the first match after it. */
  lemma {:induction false} FirstAt(lines: seq<string>, prefix: string, i: nat)
    requires i <= |lines|
    requires forall k :: 0 <= k < i ==> !StartsWith(lines[k], prefix)
    ensures i < |lines| && StartsWith(lines[i], prefix) ==> FirstWith(lines, prefix) == Some(i)
    ensures i == |lines| ==> FirstWith(lines, prefix) == None
  {
    if i > 0 {
      FirstAt(lines[1..], prefix, i - 1);
    }
  }

  /** What the request saves. */
  datatype ConfigReply = Rejected(status: nat, error: string) | Saved(message: string)

  /** The lines after the handler's updates: URL and key always, model and max tokens when given. */
  function SavedLines(lines: seq<string>, url: string, key: string, model: Option<string>, maxTokens: Option<string>): seq<string> {
    var l := Updated(Updated(lines, "SOPHNET_API_URL", url), "SOPHNET_API_KEY", key);
    var l := if Truthy(model) then Updated(l, "SOPHNET_MODEL", model.value) else l;
    if Truthy(maxTokens) then Updated(l, "SOPHNET_MAX_TOKENS", maxTokens.value) else l
  }

  /** The environment after the handler's assignments. */
  function SavedEnv(env: Env, url: string, key: string, model: Option<string>, maxTokens: Option<string>): Env {
    var e := env["SOPHNET_API_URL" := url]["SOPHNET_API_KEY" := key];
    var e := if Truthy(model) then e["SOPHNET_MODEL" := model.value] else e;
    if Truthy(maxTokens) then e["SOPHNET_MAX_TOKENS" := maxTokens.value] else e
  }

  /**
   * `POST /api/config` with the `.env` file's content (`None` when it does not exist)
   * and the process environment given; returns the reply, the text written (if any) and
   * the new environment.
   */
  method SaveConfig(existing: Option<string>, url: Option<string>, key: Option<string>, model: Option<string>,
                    maxTokens: Option<string>, env: Env) returns (reply: ConfigReply, written: Option<string>, env': Env)
    ensures !Truthy(url) || !Truthy(key) ==>
      reply == Rejected(400, "API地址和密钥不能为空") && written.None? && env' == env
    ensures Truthy(url) && Truthy(key) ==>
      var lines := SavedLines(EnvLines(existing.GetOr([])), url.value, key.value, model, maxTokens);
      && reply == Saved("配置已更新")
      && written == Some(Join(lines, [NewLine]) + [NewLine])
      && env' == SavedEnv(env, url.value, key.value, model, maxTokens)
  {
    if !Truthy(url) || !Truthy(key) {
      return Rejected(400, "API地址和密钥不能为空"), None, env;
    }
    var file := new EnvFile(existing.GetOr([]));
    file.Update("SOPHNET_API_URL", url.value);
    file.Update("SOPHNET_API_KEY", key.value);
    if Truthy(model) {
      file.Update("SOPHNET_MODEL", model.value);
    }
    if Truthy(maxTokens) {
      file.Update("SOPHNET_MAX_TOKENS", maxTokens.value);
    }
    written := Some(file.Text());
    env' := SavedEnv(env, url.value, key.value, model, maxTokens);
    reply := Saved("配置已更新");
  }

  // ---------------------------------------------------------------- properties

  /**
   * After `updateEnvVar(name, value)` the first line starting with `name=` is exactly
   * `name=value`, and every other line is as before; the list grows by one line exactly
   * when no line started with `name=`.
   */
  lemma UpdatedFinds(lines: seq<string>, name: string, value: string)
    ensures var u := Updated(lines, name, value);
      && FirstWith(u, name + "=").Some?
      && u[FirstWith(u, name + "=").value] == Entry(name, value)
      && (FirstWith(lines, name + "=").Some? ==> |u| == |lines| && FirstWith(u, name + "=") == FirstWith(lines, name + "="))
      && (FirstWith(lines, name + "=").None? ==> u == lines + [Entry(name, value)])
      && forall k :: 0 <= k < |lines| && Some(k) != FirstWith(lines, name + "=") ==> u[k] == lines[k]
  {
    var prefix := name + "=";
    var u := Updated(lines, name, value);
    assert StartsWith(Entry(name, value), prefix) by {
      assert Entry(name, value)[..|prefix|] == prefix;
    }
    match FirstWith(lines, prefix)
    case Some(i) =>
      FirstAt(u, prefix, i);
    case None =>
      FirstAt(u, prefix, |lines|);
  }

  /** Updating a variable twice with the same value is the same as updating it once. */
  lemma UpdatedIdempotent(lines: seq<string>, name: string, value: string)
    ensures Updated(Updated(lines, name, value), name, value) == Updated(lines, name, value)
  {
    UpdatedFinds(lines, name, value);
  }

  /** Splitting text that starts with a separator-free `a` and a separator gives `a` first. */
  lemma {:induction false} SplitAfter(a: string, t: string, c: char)
    requires c !in a
    ensures Split(a + [c] + t, c) == [a] + Split(t, c)
  {
    if a != [] {
      var s := a + [c] + t;
      SplitAfter(a[1..], t, c);
      assert s[0] == a[0] && s[1..] == a[1..] + [c] + t;
      var rest := Split(s[1..], c);
      assert rest == [a[1..]] + Split(t, c);
      assert Split(s, c) == [[a[0]] + rest[0]] + rest[1..];
      assert [a[0]] + a[1..] == a;
    } else {
      assert a + [c] + t == [c] + t;
      assert ([c] + t)[1..] == t;
    }
  }

  /** Splitting lines joined with a separator, plus a final one, gives the lines and an empty last part. */
  lemma {:induction false} SplitJoined(lines: seq<string>, c: char)
    requires lines != []
    requires forall k :: 0 <= k < |lines| ==> c !in lines[k]
    ensures Split(Join(lines, [c]) + [c], c) == lines + [[]]
  {
    if |lines| == 1 {
      assert Join(lines, [c]) + [c] == lines[0] + [c] + [];
      SplitAfter(lines[0], [], c);
    } else {
      SplitJoined(lines[1..], c);
      assert Join(lines, [c]) + [c] == lines[0] + [c] + (Join(lines[1..], [c]) + [c]);
      SplitAfter(lines[0], Join(lines[1..], [c]) + [c], c);
    }
  }

  /** Dropping blank lines distributes over concatenation. */
  lemma {:induction false} NonBlankAppend(a: seq<string>, b: seq<string>)
    ensures NonBlank(a + b) == NonBlank(a) + NonBlank(b)
  {
    if a != [] {
      NonBlankAppend(a[1..], b);
      assert (a + b)[1..] == a[1..] + b;
    } else {
      assert a + b == b;
    }
  }

  /** A list without blank lines is its own filtered version. */
  lemma {:induction false} NonBlankKeeps(lines: seq<string>)
    requires forall k :: 0 <= k < |lines| ==> !AllSpace(lines[k])
    ensures NonBlank(lines) == lines
  {
    if lines != [] {
      NonBlankKeeps(lines[1..]);
    }
  }

  /** Lines fit to write: none is blank or holds a newline. */
  predicate WellFormedLines(lines: seq<string>) {
    forall k :: 0 <= k < |lines| ==> NewLine !in lines[k] && !AllSpace(lines[k])
  }

  /** The text written back reads as the same lines: the file round-trips. */
  lemma ReadBack(lines: seq<string>)
    requires WellFormedLines(lines)
    ensures EnvLines(Join(lines, [NewLine]) + [NewLine]) == lines
  {
    if lines == [] {
      SplitAfter([], [], NewLine);
      assert Join(lines, [NewLine]) + [NewLine] == [] + [NewLine] + [];
    } else {
      SplitJoined(lines, NewLine);
      NonBlankAppend(lines, [[]]);
      NonBlankKeeps(lines);
    }
  }

  /** The lines read from any file are fit to write, and stay so after an update with a newline-free value. */
  lemma UpdatedWellFormed(content: string, lines: seq<string>, name: string, value: string)
    requires lines == EnvLines(content) || WellFormedLines(lines)
    requires NewLine !in name && NewLine !in value
    ensures WellFormedLines(EnvLines(content))
    ensures WellFormedLines(lines) ==> WellFormedLines(Updated(lines, name, value))
  {
    var e := Entry(name, value);
    assert e[|name|] == '=';
    assert !AllSpace(e);
    assert NewLine !in e;
  }
}
