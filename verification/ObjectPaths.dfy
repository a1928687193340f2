/** Object paths as texts and as lists of names. */
module ObjectPaths {
  import opened NameRules

  /** A name that can stand in a path. */
  predicate ValidPart(name: string) {
    name != "" && forall c | c in name :: IsNameCharNoDash(c)
  }

  predicate ValidParts(names: seq<string>) {
    forall i | 0 <= i < |names| :: ValidPart(names[i])
  }

  /** The names along an object path. */
  function Components(path: string): seq<string>
    requires IsValidObjectPath(path)
  {
    if path == "/" then [] else Split(path, '/')[1..]
  }

  /** A path written out below a prefix. */
  function PathFrom(prefix: string, q: seq<string>): string
    decreases |q|
  {
    if q == [] then prefix else PathFrom(prefix + "/" + q[0], q[1..])
  }

  function ShownPath(path: string): string {
    if path == "" then "/" else path
  }

  /** The text of a path. */
  function PathText(q: seq<string>): string {
    ShownPath(PathFrom("", q))
  }

  lemma ValidPartHasNoSlash(name: string)
    requires ValidPart(name)
    ensures '/' !in name
  {
    assert !IsNameCharNoDash('/');
  }

  lemma {:induction false} PathFromPrefix(prefix: string, q: seq<string>)
    ensures PathFrom(prefix, q) == prefix + PathFrom("", q)
    decreases |q|
  {
    if q != [] {
      PathFromPrefix(prefix + "/" + q[0], q[1..]);
      PathFromPrefix("" + "/" + q[0], q[1..]);
      var rest := PathFrom("", q[1..]);
      assert prefix + "/" + q[0] + rest == prefix + ("" + "/" + q[0] + rest);
    } else {
      assert prefix + "" == prefix;
    }
  }

  lemma {:induction false} PathIsJoined(q: seq<string>)
    requires q != []
    ensures PathFrom("", q) == "/" + Join(q, '/')
    decreases |q|
  {
    PathFromPrefix("" + "/" + q[0], q[1..]);
    if |q| > 1 {
      PathIsJoined(q[1..]);
    } else {
      assert q[1..] == [];
    }
  }

  /** Valid names, each after a slash, never give two slashes in a row, nor one at the end. */
  lemma {:induction false} NoStraySlash(q: seq<string>)
    requires q != [] && ValidParts(q)
    ensures var s := "/" + Join(q, '/');
      s[|s| - 1] != '/' && forall i | 0 <= i < |s| - 1 :: !(s[i] == '/' && s[i + 1] == '/')
    decreases |q|
  {
    var head, s := "/" + q[0], "/" + Join(q, '/');
    ValidPartHasNoSlash(q[0]);
    forall i | 1 <= i < |head| ensures head[i] != '/' {
      assert head[i] == q[0][i - 1] && head[i] in q[0];
    }
    if |q| > 1 {
      var tail := "/" + Join(q[1..], '/');
      NoStraySlash(q[1..]);
      assert s == head + tail;
      forall i | 0 <= i < |s| - 1 ensures !(s[i] == '/' && s[i + 1] == '/') {
        if i >= |head| {
          assert s[i] == tail[i - |head|] && s[i + 1] == tail[i + 1 - |head|];
        }
      }
    } else {
      assert s == head;
    }
  }

  /** The text of valid names is a valid path with these names. */
  lemma TextOfNames(q: seq<string>)
    requires ValidParts(q)
    ensures IsValidObjectPath(PathText(q)) && Components(PathText(q)) == q
  {
    if q != [] {
      var s := PathText(q);
      PathIsJoined(q);
      NoStraySlash(q);
      forall i | 0 <= i < |q| ensures '/' !in q[i] {
        ValidPartHasNoSlash(q[i]);
      }
      SplitJoin(q, '/');
      assert s[1..] == Join(q, '/');
      assert Split(s, '/') == [""] + q;
      assert s[1] != '/' by { assert |s| > 1; }
    }
  }

  /** The names of a valid path are valid, and its text is the path again. */
  lemma NamesOfText(path: string)
    requires IsValidObjectPath(path)
    ensures ValidParts(Components(path)) && PathText(Components(path)) == path
  {
    if path != "/" {
      var names := Components(path);
      assert Split(path, '/') == [""] + Split(path[1..], '/');
      JoinSplit(path[1..], '/');
      PathIsJoined(names);
      assert path == "/" + path[1..];
    }
  }

  /** Different paths have different names. */
  lemma ComponentsInjective(a: string, b: string)
    requires IsValidObjectPath(a) && IsValidObjectPath(b)
    ensures Components(a) == Components(b) <==> a == b
  {
    NamesOfText(a);
    NamesOfText(b);
  }
}
