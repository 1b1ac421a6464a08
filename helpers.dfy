/**
 * The pure helpers of the framework: findNested's dotted-path lookup in
 * nested configuration arrays, the line parser of env over the text of a
 * .env file, and base_path's path rewriting. Reading the file, __DIR__ and
 * DIRECTORY_SEPARATOR are parameters.
 */
module Helpers {
  import opened Wrappers
  import opened Text
  import opened Dictionary

  // findNested

  /** A configuration value: null, a scalar (shown by its text), or an array
      with string keys. */
  datatype Node = Null | Scalar(text: string) | Arr(entries: Entries<Node>)

  /** is_array($value) && isset($value[$key]): the key is present and its
      value is not null. */
  predicate IsSet(v: Node, key: string)
  {
    v.Arr? && Get(v.entries, key).Some? && Get(v.entries, key).value != Null
  }

  /** The walk of findNested along a list of keys: every step must find its
      key set, and the first step that does not makes the answer null. */
  function Walk(keys: seq<string>, v: Node): Node
    decreases |keys|
  {
    if keys == [] then v
    else if IsSet(v, keys[0]) then Walk(keys[1..], Get(v.entries, keys[0]).value)
    else Null
  }

  /** findNested($keyString, $config) */
  function Nested(keyString: string, config: Entries<Node>): Node
  {
    Walk(Explode(".", keyString), Arr(config))
  }

  method FindNested(keyString: string, config: Entries<Node>) returns (r: Node)
    ensures r == Nested(keyString, config)
  {
    var keys := Explode(".", keyString);
    var value := Arr(config);
    var i := 0;
    while i < |keys|
      invariant 0 <= i <= |keys|
      invariant Walk(keys[i..], value) == Walk(keys, Arr(config))
    {
      if IsSet(value, keys[i]) {
        assert keys[i..][1..] == keys[i + 1..];
        value := Get(value.entries, keys[i]).value;
      } else {
        return Null;
      }
      i := i + 1;
    }
    assert keys[i..] == [];
    return value;
  }

  /** Walking a path in two pieces is walking the first piece, then the
      second from where the first stopped (null stays null). */
  lemma {:induction false} WalkCompose(a: seq<string>, b: seq<string>, v: Node)
    ensures Walk(a + b, v) == Walk(b, Walk(a, v))
    decreases |a|
  {
    if a == [] {
      assert a + b == b;
    } else {
      assert (a + b)[0] == a[0];
      assert (a + b)[1..] == a[1..] + b;
      if IsSet(v, a[0]) {
        WalkCompose(a[1..], b, Get(v.entries, a[0]).value);
      } else if b != [] {
        assert !IsSet(Null, b[0]);
      }
    }
  }

  /** A key without a dot is one lookup; a null value and a missing key read
      alike as null. */
  lemma NestedSingleKey(key: string, config: Entries<Node>)
    requires '.' !in key
    ensures Nested(key, config) == match Get(config, key) case Some(x) => x case None => Null
  {
    ExplodeWithout('.', key);
    assert Explode(".", key) == [key];
    assert [key][1..] == [];
    var v := Arr(config);
    if IsSet(v, key) {
      assert Walk([key], v) == Walk([], Get(config, key).value);
    }
  }

  /** A dotted key descends through a nested config: the lookup continues in
      the config found under the first segment ... */
  lemma NestedDescends(first: string, rest: string, config: Entries<Node>, inner: Entries<Node>)
    requires '.' !in first
    requires Get(config, first) == Some(Arr(inner))
    ensures Nested(first + "." + rest, config) == Nested(rest, inner)
  {
    ExplodeAround('.', first, rest);
    ExplodeWithout('.', first);
    NestedSingleKey(first, config);
    WalkCompose([first], Explode(".", rest), Arr(config));
  }

  /** ... and stops with null when the first segment is missing, null or a
      scalar, whatever the rest of the path. */
  lemma NestedStopsAtLeaf(first: string, rest: string, config: Entries<Node>)
    requires '.' !in first
    requires !(Get(config, first).Some? && Get(config, first).value.Arr?)
    ensures Nested(first + "." + rest, config) == Null
  {
    ExplodeAround('.', first, rest);
    ExplodeWithout('.', first);
    NestedSingleKey(first, config);
    WalkCompose([first], Explode(".", rest), Arr(config));
    var keys := Explode(".", rest);
    var v := Walk([first], Arr(config));
    assert !IsSet(v, keys[0]);
  }

  // env

  /** explode('=', $line, 2): the line cut at its first '=', or the line
      alone when it has none. */
  function SplitFirst(line: string, c: char): (r: seq<string>)
    ensures |r| == 1 || |r| == 2
    ensures |r| == 1 ==> r[0] == line && c !in line
    ensures |r| == 2 ==> line == r[0] + [c] + r[1] && c !in r[0]
  {
    if line == [] then [""]
    else if line[0] == c then
      assert line == [] + [c] + line[1..];
      ["", line[1..]]
    else
      var rest := SplitFirst(line[1..], c);
      assert line == [line[0]] + line[1..];
      [[line[0]] + rest[0]] + rest[1..]
  }

  /** A string cuts at most one way at a first occurrence of c. */
  lemma FirstCut(x: string, y: string, x': string, y': string, c: char)
    requires c !in x && c !in x'
    requires x + [c] + y == x' + [c] + y'
    ensures x == x' && y == y'
  {
    var s := x + [c] + y;
    assert s[|x|] == c && s[|x'|] == c;
    assert forall i :: 0 <= i < |x| ==> s[i] == x[i];
    assert forall i :: 0 <= i < |x'| ==> s[i] == x'[i];
    if |x| < |x'| {
      assert false;
    } else if |x'| < |x| {
      assert false;
    }
    assert x == s[..|x|] == x';
    assert y == s[|x| + 1..] == y';
  }

  /** !empty(trim($segments[0])): the trimmed key is neither "" nor "0",
      the two strings PHP's empty() holds for. */
  predicate KeepsKey(key: string)
  {
    Trim(key) != "" && Trim(key) != "0"
  }

  /** The variables collected from the given lines: a line is kept when it
      has an '=' and a key that passes KeepsKey; the key is stored as
      written, untrimmed, the value raw, and a later line overrides an
      earlier one. */
  function Variables(lines: seq<string>): Entries<string>
    decreases |lines|
  {
    if lines == [] then []
    else
      var vars := Variables(lines[..|lines| - 1]);
      var seg := SplitFirst(lines[|lines| - 1], '=');
      if |seg| == 2 && KeepsKey(seg[0]) then Put(vars, seg[0], seg[1]) else vars
  }

  /** What env($key, $default) returns for the contents of the .env file;
      None for the file stands for realpath finding none, and then the answer
      is null whatever the default. */
  function EnvValue(file: Option<string>, key: string, default: Option<string>): Option<string>
  {
    if file.None? then None
    else match Get(Variables(Explode("\n", file.value)), key)
      case Some(v) => Some(RemoveChar(Trim(v), '\n'))
      case None => default
  }

  method Env(file: Option<string>, key: string, default: Option<string>) returns (r: Option<string>)
    ensures r == EnvValue(file, key, default)
  {
    if file.None? {
      return None;
    }
    var lines := Explode("\n", file.value);
    var vars: Entries<string> := [];
    var i := 0;
    while i < |lines|
      invariant 0 <= i <= |lines|
      invariant vars == Variables(lines[..i])
    {
      var segments := SplitFirst(lines[i], '=');
      assert lines[..i + 1][..i] == lines[..i];
      if |segments| == 2 && KeepsKey(segments[0]) {
        vars := Put(vars, segments[0], segments[1]);
      }
      i := i + 1;
    }
    assert lines[..i] == lines;
    var found := Get(vars, key);
    if found.Some? {
      var trimmed := RemoveChar(Trim(found.value), '\n');
      PutThenGet(vars, key, trimmed);
      vars := Put(vars, key, trimmed);
    }
    var value := Get(vars, key);
    r := if value.Some? then value else default;
  }

  /** Every stored key passes the key test and holds no '=': it is the text
      before the first '=' of its line. */
  lemma {:induction false} VariablesKeys(lines: seq<string>)
    ensures forall j :: 0 <= j < |Variables(lines)| ==>
      KeepsKey(Variables(lines)[j].0) && '=' !in Variables(lines)[j].0
    decreases |lines|
  {
    if lines != [] {
      var front := lines[..|lines| - 1];
      VariablesKeys(front);
      var vars := Variables(front);
      var seg := SplitFirst(lines[|lines| - 1], '=');
      if |seg| == 2 && KeepsKey(seg[0]) {
        var r := Put(vars, seg[0], seg[1]);
        forall j | 0 <= j < |r| ensures KeepsKey(r[j].0) && '=' !in r[j].0 {
          assert r[j].0 == Keys(r)[j];
          if j < |vars| {
            assert Keys(r)[j] == Keys(vars)[j];
          }
        }
      }
    }
  }

  /** So env returns the default for an empty or "0" key, or one holding '=',
      whatever the file says. */
  lemma EnvUnreachableKeys(content: string, key: string, default: Option<string>)
    requires !KeepsKey(key) || '=' in key
    ensures EnvValue(Some(content), key, default) == default
  {
    var vars := Variables(Explode("\n", content));
    VariablesKeys(Explode("\n", content));
  }

  predicate ValuesAvoid(m: Entries<string>, c: char)
  {
    forall j :: 0 <= j < |m| ==> c !in m[j].1
  }

  lemma {:induction false} PutAvoids(m: Entries<string>, k: string, v: string, c: char)
    requires ValuesAvoid(m, c) && c !in v
    ensures ValuesAvoid(Put(m, k, v), c)
  {
    if m != [] && m[0].0 != k {
      PutAvoids(m[1..], k, v, c);
      assert ValuesAvoid([m[0]], c);
    }
  }

  /** Values come from within single lines, so none holds a line break. */
  lemma {:induction false} VariablesAvoid(lines: seq<string>, c: char)
    requires forall i :: 0 <= i < |lines| ==> c !in lines[i]
    ensures ValuesAvoid(Variables(lines), c)
    decreases |lines|
  {
    if lines != [] {
      var front := lines[..|lines| - 1];
      var line := lines[|lines| - 1];
      VariablesAvoid(front, c);
      var seg := SplitFirst(line, '=');
      if |seg| == 2 && KeepsKey(seg[0]) {
        assert c !in line;
        ValueAvoids(line, '=', c);
        PutAvoids(Variables(front), seg[0], seg[1], c);
      }
    }
  }

  /** What follows the first occurrence of e avoids whatever the line avoids. */
  lemma ValueAvoids(line: string, e: char, c: char)
    requires c !in line
    requires |SplitFirst(line, e)| == 2
    ensures c !in SplitFirst(line, e)[1]
  {
    var seg := SplitFirst(line, e);
    forall i | 0 <= i < |seg[1]| ensures seg[1][i] != c {
      assert seg[1][i] == line[|seg[0]| + 1 + i];
    }
  }

  lemma TrimAvoids(s: string, c: char)
    requires c !in s
    ensures c !in Trim(s)
  {
    var l := TrimLeft(s);
    forall i | 0 <= i < |l| ensures l[i] != c {
      assert l[i] == s[|s| - |l| + i];
    }
    var r := TrimRight(l);
    forall i | 0 <= i < |r| ensures r[i] != c {
      assert r[i] == l[i];
    }
  }

  /** The str_replace of "\n" after trim never removes anything: a value read
      from the file is simply the trimmed text after the '='. */
  lemma EnvValueTrimmed(content: string, key: string, default: Option<string>, v: string)
    requires Get(Variables(Explode("\n", content)), key) == Some(v)
    ensures EnvValue(Some(content), key, default) == Some(Trim(v))
  {
    var lines := Explode("\n", content);
    ExplodePiecesAvoid('\n', content);
    VariablesAvoid(lines, '\n');
    GetAvoids(Variables(lines), key, '\n');
    TrimAvoids(v, '\n');
    RemoveAbsentChar(Trim(v), '\n');
  }

  lemma {:induction false} GetAvoids(m: Entries<string>, k: string, c: char)
    requires ValuesAvoid(m, c) && Get(m, k).Some?
    ensures c !in Get(m, k).value
  {
    if m[0].0 != k {
      assert ValuesAvoid(m[1..], c);
      GetAvoids(m[1..], k, c);
    }
  }

  /** The last assignment of a key in the file decides its value, whatever
      the lines before it say. */
  lemma EnvLastLineWins(lines: seq<string>, key: string, v: string, default: Option<string>)
    requires forall i :: 0 <= i < |lines| ==> '\n' !in lines[i]
    requires '\n' !in key && '\n' !in v && '=' !in key && KeepsKey(key)
    ensures EnvValue(Some(Join("\n", lines + [key + "=" + v])), key, default) == Some(Trim(v))
  {
    var all := lines + [key + "=" + v];
    assert Variables(all) == Put(Variables(lines), key, v) by {
      AssignmentSplits(key, v);
      assert all[..|all| - 1] == lines;
    }
    PutThenGet(Variables(lines), key, v);
    AppendAvoids(lines, key + "=" + v, '\n');
    EnvOfLines(all, key, v, default);
  }

  /** The file made of the given lines reads a key as the trimmed value the
      lines assign it. */
  lemma EnvOfLines(lines: seq<string>, key: string, v: string, default: Option<string>)
    requires forall i :: 0 <= i < |lines| ==> '\n' !in lines[i]
    requires Get(Variables(lines), key) == Some(v)
    ensures EnvValue(Some(Join("\n", lines)), key, default) == Some(Trim(v))
  {
    ExplodeJoin('\n', lines);
    EnvValueTrimmed(Join("\n", lines), key, default, v);
  }

  /** Appending a line without c keeps every line free of c. */
  lemma AppendAvoids(lines: seq<string>, line: string, c: char)
    requires forall i :: 0 <= i < |lines| ==> c !in lines[i]
    requires c !in line
    ensures forall i :: 0 <= i < |lines + [line]| ==> c !in (lines + [line])[i]
  {
    forall i | 0 <= i < |lines + [line]| ensures c !in (lines + [line])[i] {
      if i < |lines| {
        assert (lines + [line])[i] == lines[i];
      }
    }
  }

  /** "<key>=<value>" cuts at the '=' that follows the key. */
  lemma AssignmentSplits(key: string, v: string)
    requires '=' !in key
    ensures SplitFirst(key + "=" + v, '=') == [key, v]
  {
    var line := key + "=" + v;
    var seg := SplitFirst(line, '=');
    assert line[|key|] == '=';
    FirstCut(seg[0], seg[1], key, v, '=');
  }

  /** A line without '=', or whose key fails the test, changes nothing. */
  lemma EnvSkipsLine(lines: seq<string>, line: string, key: string, default: Option<string>)
    requires |lines| > 0
    requires forall i :: 0 <= i < |lines| ==> '\n' !in lines[i]
    requires '\n' !in line
    requires |SplitFirst(line, '=')| == 1 || !KeepsKey(SplitFirst(line, '=')[0])
    ensures EnvValue(Some(Join("\n", lines + [line])), key, default)
         == EnvValue(Some(Join("\n", lines)), key, default)
  {
    var all := lines + [line];
    assert forall i :: 0 <= i < |all| ==> '\n' !in all[i] by {
      forall i | 0 <= i < |all| ensures '\n' !in all[i] {
        if i < |lines| {
          assert all[i] == lines[i];
        }
      }
    }
    ExplodeJoin('\n', all);
    ExplodeJoin('\n', lines);
    assert all[..|all| - 1] == lines;
  }

  /** A file of one assignment defines exactly the key as written and no
      other: its key is not trimmed, so " PORT=80" defines " PORT" and not
      PORT. */
  lemma EnvSingleLine(k: string, v: string, key: string, default: Option<string>)
    requires '\n' !in k && '\n' !in v && '=' !in k && KeepsKey(k)
    ensures EnvValue(Some(k + "=" + v), key, default) == if key == k then Some(Trim(v)) else default
  {
    var line := k + "=" + v;
    assert [] + [line] == [line];
    if key == k {
      EnvLastLineWins([], k, v, default);
    } else {
      ExplodeWithout('\n', line);
      assert line[|k|] == '=';
      var seg := SplitFirst(line, '=');
      FirstCut(seg[0], seg[1], k, v, '=');
      assert [line][..0] == [];
      assert Variables([line]) == [(k, v)];
    }
  }

  // base_path

  /** base_path($path) with __DIR__ and DIRECTORY_SEPARATOR as parameters:
      join(DS, [__DIR__ . '\..', $path]) after every '/' of the path became a
      backslash. */
  function BasePath(path: string, dir: string, ds: char): string
  {
    Join([ds], [dir + "\\..", ReplaceChar(path, '/', '\\')])
  }

  /** The result is the directory, "\..", the separator, then the path with
      its slashes turned into backslashes and nothing else changed; the
      default empty path gives the parent directory followed by the separator. */
  lemma BasePathShape(path: string, dir: string, ds: char)
    ensures var r := BasePath(path, dir, ds);
      && r == dir + "\\.." + [ds] + ReplaceChar(path, '/', '\\')
      && |r| == |dir| + 4 + |path|
      && (forall i :: 0 <= i < |path| ==> r[|dir| + 4 + i] == if path[i] == '/' then '\\' else path[i])
      && (forall i :: |dir| + 4 <= i < |r| ==> r[i] != '/')
      && (path == "" ==> r == dir + "\\.." + [ds])
  {
    Join2([ds], dir + "\\..", ReplaceChar(path, '/', '\\'));
  }

  /** Rewriting slashes is idempotent: a path already written with
      backslashes resolves to the same place. */
  lemma BasePathRewriteIdempotent(path: string, dir: string, ds: char)
    ensures BasePath(ReplaceChar(path, '/', '\\'), dir, ds) == BasePath(path, dir, ds)
  {
    var once := ReplaceChar(path, '/', '\\');
    assert ReplaceChar(once, '/', '\\') == once;
  }
}
