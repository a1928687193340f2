/** Validity of bus names, interface names and object paths (qdbusutil.cpp). */
module NameRules {

  const MAXIMUM_NAME_LENGTH := 255

  /** QString::split, which keeps empty parts. */
  function Split(s: string, sep: char): (parts: seq<string>)
    ensures |parts| >= 1
  {
    if s == "" then [""]
    else
      var rest := Split(s[1..], sep);
      if s[0] == sep then [""] + rest else [[s[0]] + rest[0]] + rest[1..]
  }

  function Join(parts: seq<string>, sep: char): string
    requires |parts| >= 1
  {
    if |parts| == 1 then parts[0] else parts[0] + [sep] + Join(parts[1..], sep)
  }

  predicate IsDigit(c: char) {
    '0' <= c <= '9'
  }

  predicate IsNameCharNoDash(c: char) {
    'a' <= c <= 'z' || 'A' <= c <= 'Z' || IsDigit(c) || c == '_'
  }

  predicate IsNameChar(c: char) {
    IsNameCharNoDash(c) || c == '-'
  }

  predicate IsValidMemberName(name: string) {
    && name != "" && |name| <= MAXIMUM_NAME_LENGTH
    && !IsDigit(name[0])
    && forall c | c in name :: IsNameCharNoDash(c)
  }

  predicate IsValidInterfaceName(name: string) {
    && name != "" && |name| <= MAXIMUM_NAME_LENGTH
    && var parts := Split(name, '.');
    && |parts| >= 2
    && forall i | 0 <= i < |parts| :: IsValidMemberName(parts[i])
  }

  predicate IsValidUniqueConnectionName(name: string) {
    && name != "" && |name| <= MAXIMUM_NAME_LENGTH
    && name[0] == ':'
    && var parts := Split(name[1..], '.');
    && forall i | 0 <= i < |parts| ::
      parts[i] != "" && forall c | c in parts[i] :: IsNameChar(c)
  }

  predicate IsValidBusName(name: string) {
    && name != "" && |name| <= MAXIMUM_NAME_LENGTH
    && if name[0] == ':' then IsValidUniqueConnectionName(name)
       else
         var parts := Split(name, '.');
         forall i | 0 <= i < |parts| ::
           parts[i] != "" && !IsDigit(parts[i][0]) && forall c | c in parts[i] :: IsNameChar(c)
  }

  predicate IsValidObjectPath(path: string) {
    || path == "/"
    || (&& path != "" && path[0] == '/' && path[|path| - 1] != '/'
        && (forall i | 0 <= i < |path| - 1 :: !(path[i] == '/' && path[i + 1] == '/'))
        && var parts := Split(path, '/')[1..];
           forall i | 0 <= i < |parts| ::
             parts[i] != "" && forall c | c in parts[i] :: IsNameCharNoDash(c))
  }

  lemma {:induction false} JoinSplit(s: string, sep: char)
    ensures Join(Split(s, sep), sep) == s
  {
    if s != "" {
      JoinSplit(s[1..], sep);
      var rest := Split(s[1..], sep);
      if s[0] == sep {
        assert ([""] + rest)[1..] == rest;
      } else {
        assert ([[s[0]] + rest[0]] + rest[1..])[1..] == rest[1..];
      }
    }
  }

  lemma {:induction false} SplitJoin(parts: seq<string>, sep: char)
    requires |parts| >= 1
    requires forall i | 0 <= i < |parts| :: sep !in parts[i]
    ensures Split(Join(parts, sep), sep) == parts
    decreases |parts|, |parts[0]|
  {
    var s := Join(parts, sep);
    if parts[0] == "" {
      if |parts| > 1 {
        assert s[1..] == Join(parts[1..], sep);
        SplitJoin(parts[1..], sep);
      }
    } else {
      var shorter := [parts[0][1..]] + parts[1..];
      assert shorter[1..] == parts[1..];
      assert s[1..] == Join(shorter, sep);
      SplitJoin(shorter, sep);
      assert s[0] == parts[0][0] && s[0] in parts[0];
      assert [s[0]] + shorter[0] == parts[0];
      assert [parts[0]] + parts[1..] == parts;
    }
  }

  /** A character of a string other than the separator is in one of its parts. */
  lemma {:induction false} CharInPart(s: string, sep: char, c: char)
    requires c in s && c != sep
    ensures exists i :: 0 <= i < |Split(s, sep)| && c in Split(s, sep)[i]
  {
    var parts := Split(s, sep);
    var rest := Split(s[1..], sep);
    if s[0] == c {
      assert c in parts[0];
    } else {
      CharInPart(s[1..], sep, c);
      var i :| 0 <= i < |rest| && c in rest[i];
      if s[0] == sep {
        assert parts[i + 1] == rest[i];
      } else if i == 0 {
        assert c in parts[0];
      } else {
        assert parts[i] == rest[i];
      }
    }
  }

  /** What makes a validated service name safe inside a quoted match rule. */
  lemma BusNameHasNoQuote(name: string)
    requires IsValidBusName(name)
    ensures '\'' !in name
  {
    if '\'' in name {
      if name[0] == ':' {
        CharInPart(name[1..], '.', '\'');
      } else {
        CharInPart(name, '.', '\'');
      }
    }
  }

  /** The documented rule for names that are not unique. */
  predicate DocumentedBusName(name: string) {
    && name != "" && |name| <= MAXIMUM_NAME_LENGTH
    && var parts := Split(name, '.');
    && |parts| >= 2
    && forall i | 0 <= i < |parts| ::
      parts[i] != "" && !IsDigit(parts[i][0]) && forall c | c in parts[i] :: IsNameChar(c)
  }

  lemma {:induction false} PartsOfSplit(s: string, sep: char)
    ensures |Split(s, sep)| >= 2 <==> sep in s
  {
    if s != "" {
      PartsOfSplit(s[1..], sep);
      assert sep in s <==> s[0] == sep || sep in s[1..];
    }
  }

  /** The validator does not ask for two parts: an accepted name obeys the documented rule if and only
      if it has a dot. */
  lemma DocumentedNames(name: string)
    ensures DocumentedBusName(name) <==> IsValidBusName(name) && name[0] != ':' && '.' in name
  {
    PartsOfSplit(name, '.');
    if DocumentedBusName(name) && name[0] == ':' {
      CharInPart(name, '.', ':');
    }
  }

  /** Any part by itself is accepted. */
  lemma OnePartIsAccepted(part: string)
    requires part != "" && |part| <= MAXIMUM_NAME_LENGTH && !IsDigit(part[0]) && forall c | c in part :: IsNameChar(c)
    ensures IsValidBusName(part) && !DocumentedBusName(part)
  {
    assert !IsNameChar('.') && !IsNameChar(':');
    SplitJoin([part], '.');
    PartsOfSplit(part, '.');
  }

  /** What makes "member:interface" an unambiguous key. */
  lemma InterfaceNameHasNoColon(name: string)
    requires IsValidInterfaceName(name)
    ensures ':' !in name
  {
    if ':' in name {
      CharInPart(name, '.', ':');
    }
  }

  // ---------- the same names, read character by character ----------

  /** A name in the grammar of the D-Bus Specification, section "Valid Names": elements of letters, digits
      and underscores, of dashes too if allowed, that are not empty, nor begin with a digit unless allowed,
      with separators between them. `start` says that an element begins here. */
  predicate Elements(s: string, sep: char, dashes: bool, digits: bool, start: bool) {
    if s == "" then !start
    else if s[0] == sep then !start && Elements(s[1..], sep, dashes, digits, true)
    else
      && ('a' <= s[0] <= 'z' || 'A' <= s[0] <= 'Z' || s[0] == '_' || (s[0] == '-' && dashes)
          || ('0' <= s[0] <= '9' && (digits || !start)))
      && Elements(s[1..], sep, dashes, digits, false)
  }

  predicate IsElementChar(c: char, dashes: bool) {
    IsNameCharNoDash(c) || (dashes && c == '-')
  }

  predicate IsElement(part: string, dashes: bool, digits: bool) {
    part != "" && (digits || !IsDigit(part[0])) && forall c | c in part :: IsElementChar(c, dashes)
  }

  predicate AllElements(parts: seq<string>, dashes: bool, digits: bool) {
    forall i | 0 <= i < |parts| :: IsElement(parts[i], dashes, digits)
  }

  lemma AllAfterFirst(first: string, rest: seq<string>, dashes: bool, digits: bool)
    ensures AllElements([first] + rest, dashes, digits) <==> IsElement(first, dashes, digits) && AllElements(rest, dashes, digits)
  {
    hide IsElement;
    var parts := [first] + rest;
    assert parts[0] == first;
    assert forall i | 0 <= i < |rest| :: parts[i + 1] == rest[i];
    assert forall i | 1 <= i < |parts| :: parts[i] == rest[i - 1];
  }

  lemma FirstElement(c: char, rest: string, dashes: bool, digits: bool)
    ensures IsElement([c] + rest, dashes, digits) <==>
      (digits || !IsDigit(c)) && IsElementChar(c, dashes) && forall d | d in rest :: IsElementChar(d, dashes)
  {
    hide IsElementChar;
    assert forall d :: d in [c] + rest <==> d == c || d in rest;
  }

  lemma {:induction false} ElementsAreParts(s: string, sep: char, dashes: bool, digits: bool)
    requires sep in ['.', '/']
    ensures Elements(s, sep, dashes, digits, true) <==> AllElements(Split(s, sep), dashes, digits)
    ensures Elements(s, sep, dashes, digits, false) <==>
      (forall c | c in Split(s, sep)[0] :: IsElementChar(c, dashes)) && AllElements(Split(s, sep)[1..], dashes, digits)
  {
    hide AllElements, IsElement;
    var parts := Split(s, sep);
    AllAfterFirst(parts[0], parts[1..], dashes, digits);
    assert parts == [parts[0]] + parts[1..];
    if s == "" {
      NoEmptyElement(dashes, digits);
      NoElements(dashes, digits);
      assert parts[1..] == [];
    } else {
      ElementsAreParts(s[1..], sep, dashes, digits);
      var rest := Split(s[1..], sep);
      if s[0] == sep {
        NoEmptyElement(dashes, digits);
        assert parts[0] == "" && parts[1..] == rest;
      } else {
        FirstElement(s[0], rest[0], dashes, digits);
        assert parts[0] == [s[0]] + rest[0] && parts[1..] == rest[1..];
        assert forall c :: c in parts[0] <==> c == s[0] || c in rest[0];
      }
    }
  }

  lemma NoEmptyElement(dashes: bool, digits: bool)
    ensures !IsElement("", dashes, digits)
  {}

  lemma NoElements(dashes: bool, digits: bool)
    ensures AllElements([], dashes, digits)
  {}

  lemma InterfaceGrammar(name: string)
    ensures IsValidInterfaceName(name) <==> |name| <= 255 && '.' in name && Elements(name, '.', false, false, true)
  {
    ElementsAreParts(name, '.', false, false);
    PartsOfSplit(name, '.');
    PartsAreShorter(name, '.');
    var parts := Split(name, '.');
    assert forall i | 0 <= i < |parts| && |name| <= 255 :: IsValidMemberName(parts[i]) <==> IsElement(parts[i], false, false);
  }

  lemma {:induction false} PartsAreShorter(s: string, sep: char)
    ensures forall i | 0 <= i < |Split(s, sep)| :: |Split(s, sep)[i]| <= |s|
  {
    if s != "" {
      PartsAreShorter(s[1..], sep);
    }
  }

  lemma MemberGrammar(name: string)
    ensures IsValidMemberName(name) <==> |name| <= 255 && '.' !in name && Elements(name, '.', false, false, true)
  {
    ElementsAreParts(name, '.', false, false);
    PartsOfSplit(name, '.');
    assert !IsNameCharNoDash('.');
    if '.' !in name {
      SplitJoin([name], '.');
    }
  }

  lemma BusGrammar(name: string)
    ensures name != "" && name[0] == ':' ==>
      (IsValidBusName(name) <==> |name| <= 255 && Elements(name[1..], '.', true, true, true))
    ensures !(name != "" && name[0] == ':') ==>
      (IsValidBusName(name) <==> |name| <= 255 && Elements(name, '.', true, false, true))
  {
    hide Split;
    ElementsAreParts(name, '.', true, false);
    if name != "" {
      ElementsAreParts(name[1..], '.', true, true);
    }
  }

  lemma UniqueNameGrammar(name: string)
    ensures IsValidUniqueConnectionName(name) <==>
      |name| <= 255 && name != "" && name[0] == ':' && Elements(name[1..], '.', true, true, true)
  {
    if name != "" {
      ElementsAreParts(name[1..], '.', true, true);
    }
  }

  lemma PathGrammar(path: string)
    ensures IsValidObjectPath(path) <==>
      path == "/" || (path != "" && path[0] == '/' && Elements(path[1..], '/', false, true, true))
  {
    if path != "" && path[0] == '/' {
      ElementsAreParts(path[1..], '/', false, true);
      assert Split(path, '/')[1..] == Split(path[1..], '/');
      if Elements(path[1..], '/', false, true, true) {
        NoDoubleSlash(path[1..], true);
        assert forall i | 0 <= i < |path| - 1 :: path[i + 1] == path[1..][i];
      }
    }
  }

  lemma {:induction false} NoDoubleSlash(s: string, start: bool)
    requires Elements(s, '/', false, true, start)
    ensures s != "" ==> s[|s| - 1] != '/' && (start ==> s[0] != '/')
    ensures start ==> s != ""
    ensures forall i | 0 <= i < |s| - 1 :: !(s[i] == '/' && s[i + 1] == '/')
  {
    if s != "" {
      NoDoubleSlash(s[1..], s[0] == '/');
      assert forall i | 0 < i < |s| - 1 :: s[i] == s[1..][i - 1] && s[i + 1] == s[1..][i];
    }
  }
}
