/** Match rules: the text buildMatchRule produces, and how the bus reads it. */
module MatchRule {
  import opened QtText

  const DBUS_SERVICE := "org.freedesktop.DBus"
  const DBUS_INTERFACE := "org.freedesktop.DBus"

  /** What a caller subscribes to; an empty field is a wildcard, a null argument matches anything. */
  datatype Subscription = Subscription(
    service: string, path: string, interface: string, member: string, args: seq<QString>)

  type Pair = (string, string)

  // ---------- writing ----------

  function ArgKey(i: nat): string {
    "arg" + Decimal(i)
  }

  function FieldPair(key: string, value: string): seq<Pair> {
    if value == "" then [] else [(key, value)]
  }

  function ArgPair(arg: QString, i: nat): seq<Pair> {
    if arg.Null? then [] else [(ArgKey(i), arg.text)]
  }

  function ArgPairs(args: seq<QString>, i: nat): seq<Pair>
    requires i <= |args|
    decreases |args| - i
  {
    if i == |args| then [] else ArgPair(args[i], i) + ArgPairs(args, i + 1)
  }

  /** The constraints of a subscription, in the order they are written. */
  function Pairs(sub: Subscription): seq<Pair> {
    [("type", "signal")]
    + FieldPair("sender", sub.service)
    + FieldPair("path", sub.path)
    + FieldPair("interface", sub.interface)
    + FieldPair("member", sub.member)
    + ArgPairs(sub.args, 0)
  }

  function Quoted(p: Pair): string {
    p.0 + "='" + p.1 + "'"
  }

  function Joined(pairs: seq<Pair>): string {
    if pairs == [] then ""
    else if |pairs| == 1 then Quoted(pairs[0])
    else Quoted(pairs[0]) + "," + Joined(pairs[1..])
  }

  function RuleText(sub: Subscription): string {
    Joined(Pairs(sub))
  }

  lemma {:induction false} JoinedSnoc(pairs: seq<Pair>, p: Pair)
    requires pairs != []
    ensures Joined(pairs + [p]) == Joined(pairs) + "," + Quoted(p)
  {
    if |pairs| == 1 {
      assert (pairs + [p])[1..] == [p];
    } else {
      JoinedSnoc(pairs[1..], p);
      assert (pairs + [p])[1..] == pairs[1..] + [p];
    }
  }

  /** One more constraint at the end of the text under construction. */
  function Appended(result: string, key: string, value: string): string {
    result + key + "='" + value + "',"
  }

  lemma AppendedStep(result: string, done: seq<Pair>, key: string, value: string)
    requires done != [] && result == Joined(done) + ","
    ensures Appended(result, key, value) == Joined(done + [(key, value)]) + ","
  {
    JoinedSnoc(done, (key, value));
  }

  /** Appends a field and a comma, unless the field is a wildcard. */
  method AppendField(result: string, ghost done: seq<Pair>, key: string, value: string) returns (r: string)
    requires done != [] && result == Joined(done) + ","
    ensures r == Joined(done + FieldPair(key, value)) + ","
  {
    r := result;
    if value != "" {
      r := Appended(result, key, value);
      AppendedStep(result, done, key, value);
    } else {
      assert done + FieldPair(key, value) == done;
    }
  }

  /** Appends every constraint followed by a comma, then chops the last comma. */
  method BuildMatchRule(sub: Subscription) returns (rule: string)
    ensures rule == RuleText(sub)
  {
    hide Joined;
    ghost var first := [("type", "signal")];
    ghost var sender := first + FieldPair("sender", sub.service);
    ghost var path := sender + FieldPair("path", sub.path);
    ghost var interface := path + FieldPair("interface", sub.interface);
    ghost var member := interface + FieldPair("member", sub.member);
    TypeField();
    var result := "type='signal',";
    result := AppendField(result, first, "sender", sub.service);
    result := AppendField(result, sender, "path", sub.path);
    result := AppendField(result, path, "interface", sub.interface);
    result := AppendField(result, interface, "member", sub.member);
    result := AppendArguments(result, member, sub.args);
    rule := result[..|result| - 1];
  }

  lemma TypeField()
    ensures "type='signal'," == Joined([("type", "signal")]) + ","
  {}

  method AppendArguments(result: string, ghost fields: seq<Pair>, args: seq<QString>) returns (r: string)
    requires fields != [] && result == Joined(fields) + ","
    ensures r == Joined(fields + ArgPairs(args, 0)) + ","
  {
    r := result;
    ghost var done := fields;
    var i := 0;
    while i < |args|
      invariant 0 <= i <= |args|
      invariant done != [] && done + ArgPairs(args, i) == fields + ArgPairs(args, 0)
      invariant r == Joined(done) + ","
    {
      ghost var next := done + ArgPair(args[i], i);
      assert next + ArgPairs(args, i + 1) == done + ArgPairs(args, i);
      if !args[i].Null? {
        AppendedStep(r, done, ArgKey(i), args[i].text);
        r := Appended(r, ArgKey(i), args[i].text);
      } else {
        assert next == done;
      }
      done := next;
      i := i + 1;
    }
    assert done == fields + ArgPairs(args, 0);
  }

  // ---------- reading, after section "Match Rules" of the D-Bus Specification ----------

  /** Reads a value: an apostrophe opens and closes a quoted stretch, outside of which a comma
      ends the value and backslash-apostrophe stands for an apostrophe. */
  function ReadValue(s: string, quoted: bool): (r: (bool, string, string))
    ensures |r.2| <= |s|
    decreases |s|
  {
    if s == "" then (!quoted, "", "")
    else if quoted then
      if s[0] == '\'' then ReadValue(s[1..], false)
      else var (ok, value, rest) := ReadValue(s[1..], true); (ok, [s[0]] + value, rest)
    else if s[0] == ',' then (true, "", s)
    else if s[0] == '\'' then ReadValue(s[1..], true)
    else if s[0] == '\\' && |s| >= 2 && s[1] == '\'' then
      var (ok, value, rest) := ReadValue(s[2..], false); (ok, "'" + value, rest)
    else var (ok, value, rest) := ReadValue(s[1..], false); (ok, [s[0]] + value, rest)
  }

  /** Splits at the first equals sign. */
  function ReadKey(s: string): (r: (bool, string, string))
    ensures r.0 ==> |r.2| < |s|
  {
    if s == "" then (false, "", "")
    else if s[0] == '=' then (true, "", s[1..])
    else var (ok, key, rest) := ReadKey(s[1..]); (ok, [s[0]] + key, rest)
  }

  datatype Parsed = Malformed | Constraints(pairs: seq<Pair>)

  function ParseRule(s: string): Parsed
    decreases |s|
  {
    if s == "" then Constraints([]) else
    var (okKey, key, afterKey) := ReadKey(s);
    if !okKey then Malformed else
    var (okValue, value, rest) := ReadValue(afterKey, false);
    if !okValue then Malformed else
    match ParseRule(if rest == "" then "" else rest[1..])
    case Malformed => Malformed
    case Constraints(pairs) => Constraints([(key, value)] + pairs)
  }

  /** The constraint on a key, null if there is none. */
  function Constraint(pairs: seq<Pair>, key: string): QString {
    if pairs == [] then Null
    else if pairs[0].0 == key then Str(pairs[0].1)
    else Constraint(pairs[1..], key)
  }

  // ---------- reading gives back what was written ----------

  predicate QuoteFree(sub: Subscription) {
    && '\'' !in sub.service && '\'' !in sub.path && '\'' !in sub.interface && '\'' !in sub.member
    && forall i | 0 <= i < |sub.args| :: '\'' !in sub.args[i].Text()
  }

  predicate Writable(pairs: seq<Pair>) {
    forall i | 0 <= i < |pairs| :: '=' !in pairs[i].0 && '\'' !in pairs[i].1
  }

  lemma {:induction false} ReadQuoted(v: string, tail: string)
    requires '\'' !in v
    requires tail == "" || tail[0] == ','
    ensures ReadValue(v + "'" + tail, true) == (true, v, tail)
  {
    var s := v + "'" + tail;
    if v == "" {
      assert s[1..] == tail;
    } else {
      ReadQuoted(v[1..], tail);
      assert s[1..] == v[1..] + "'" + tail;
      assert s[0] == v[0] && s[0] in v;
      assert [v[0]] + v[1..] == v;
    }
  }

  lemma {:induction false} ReadWrittenKey(k: string, tail: string)
    requires '=' !in k
    ensures ReadKey(k + "=" + tail) == (true, k, tail)
  {
    var s := k + "=" + tail;
    if k != "" {
      ReadWrittenKey(k[1..], tail);
      assert s[1..] == k[1..] + "=" + tail;
      assert s[0] == k[0] && s[0] in k;
      assert [k[0]] + k[1..] == k;
    }
  }

  lemma {:induction false} ParseJoined(pairs: seq<Pair>)
    requires Writable(pairs)
    ensures ParseRule(Joined(pairs)) == Constraints(pairs)
  {
    if pairs != [] {
      var p := pairs[0];
      var tail := if |pairs| == 1 then "" else "," + Joined(pairs[1..]);
      var s := Joined(pairs);
      assert s == p.0 + "=" + ("'" + (p.1 + "'" + tail));
      ReadWrittenKey(p.0, "'" + (p.1 + "'" + tail));
      ReadQuoted(p.1, tail);
      assert ("'" + (p.1 + "'" + tail))[1..] == p.1 + "'" + tail;
      ParseJoined(pairs[1..]);
      assert |pairs| > 1 ==> tail[1..] == Joined(pairs[1..]);
      assert [p] + pairs[1..] == pairs;
    }
  }

  lemma {:induction false} ConstraintAppend(a: seq<Pair>, b: seq<Pair>, key: string)
    ensures Constraint(a + b, key) ==
      if Constraint(a, key).Null? then Constraint(b, key) else Constraint(a, key)
  {
    if a == [] {
      assert a + b == b;
    } else {
      ConstraintAppend(a[1..], b, key);
      assert (a + b)[1..] == a[1..] + b;
    }
  }

  /** The argument constraint at a position, null beyond the end of the list. */
  function ArgAt(args: seq<QString>, i: nat): QString {
    if i < |args| then args[i] else Null
  }

  lemma {:induction false} ConstraintOfArgs(args: seq<QString>, from: nat, key: string)
    requires from <= |args|
    ensures (forall i: nat :: key != ArgKey(i)) ==> Constraint(ArgPairs(args, from), key) == Null
    ensures forall i: nat :: key == ArgKey(i) ==>
      Constraint(ArgPairs(args, from), key) == if i < from then Null else ArgAt(args, i)
    decreases |args| - from
  {
    forall i: nat, j: nat | ArgKey(i) == ArgKey(j) ensures i == j {
      assert ArgKey(i)[3..] == Decimal(i) && ArgKey(j)[3..] == Decimal(j);
      DecimalInjective(i, j);
    }
    if from < |args| {
      ConstraintOfArgs(args, from + 1, key);
      if !args[from].Null? {
        assert ([(ArgKey(from), args[from].text)] + ArgPairs(args, from + 1))[1..] == ArgPairs(args, from + 1);
      } else {
        assert [] + ArgPairs(args, from + 1) == ArgPairs(args, from + 1);
      }
    }
  }

  function FieldConstraint(value: string): QString {
    if value == "" then Null else Str(value)
  }

  lemma ConstraintOfPairs(sub: Subscription, key: string)
    ensures var c := Constraint(Pairs(sub), key);
      && (key == "type" ==> c == Str("signal"))
      && (key == "sender" ==> c == FieldConstraint(sub.service))
      && (key == "path" ==> c == FieldConstraint(sub.path))
      && (key == "interface" ==> c == FieldConstraint(sub.interface))
      && (key == "member" ==> c == FieldConstraint(sub.member))
      && forall i: nat :: key == ArgKey(i) ==> c == ArgAt(sub.args, i)
  {
    var a := [("type", "signal")] + FieldPair("sender", sub.service);
    var b := a + FieldPair("path", sub.path);
    var c := b + FieldPair("interface", sub.interface);
    var d := c + FieldPair("member", sub.member);
    ConstraintAppend([("type", "signal")], FieldPair("sender", sub.service), key);
    ConstraintAppend(a, FieldPair("path", sub.path), key);
    ConstraintAppend(b, FieldPair("interface", sub.interface), key);
    ConstraintAppend(c, FieldPair("member", sub.member), key);
    ConstraintAppend(d, ArgPairs(sub.args, 0), key);
    ConstraintOfArgs(sub.args, 0, key);
    forall i: nat
      ensures ArgKey(i)[0] == 'a'
      ensures key in ["type", "sender", "path", "interface", "member"] ==> key != ArgKey(i)
    {}
  }

  lemma PairsAreWritable(sub: Subscription)
    requires QuoteFree(sub)
    ensures Writable(Pairs(sub))
  {
    ArgPairsAreWritable(sub.args, 0);
  }

  lemma {:induction false} ArgPairsAreWritable(args: seq<QString>, from: nat)
    requires from <= |args|
    requires forall i | 0 <= i < |args| :: '\'' !in args[i].Text()
    ensures Writable(ArgPairs(args, from))
    decreases |args| - from
  {
    if from < |args| {
      ArgPairsAreWritable(args, from + 1);
    }
  }

  // ---------- reading gives back nothing else ----------

  /** How many characters are not apostrophes. */
  function Plain(s: string): nat {
    if s == "" then 0 else Plain(s[1..]) + if s[0] == '\'' then 0 else 1
  }

  lemma {:induction false} PlainAppend(a: string, b: string)
    ensures Plain(a + b) == Plain(a) + Plain(b)
  {
    if a == "" {
      assert a + b == b;
    } else {
      PlainAppend(a[1..], b);
      assert (a + b)[1..] == a[1..] + b;
    }
  }

  lemma {:induction false} PlainIsQuoteFree(s: string)
    ensures Plain(s) <= |s| && (Plain(s) == |s| <==> '\'' !in s)
  {
    if s != "" {
      PlainIsQuoteFree(s[1..]);
      assert s == [s[0]] + s[1..];
    }
  }

  /** Reading a value uses up one character other than an apostrophe for each character it returns. */
  lemma {:induction false} ValueWeight(s: string, quoted: bool)
    requires ReadValue(s, quoted).0
    ensures Plain(s) == |ReadValue(s, quoted).1| + Plain(ReadValue(s, quoted).2)
    ensures ReadValue(s, quoted).2 == "" || ReadValue(s, quoted).2[0] == ','
    decreases |s|
  {
    if s != "" {
      if quoted {
        ValueWeight(s[1..], s[0] != '\'');
      } else if s[0] == ',' {
      } else if s[0] == '\'' {
        ValueWeight(s[1..], true);
      } else if s[0] == '\\' && |s| >= 2 && s[1] == '\'' {
        ValueWeight(s[2..], false);
        assert s[1..][1..] == s[2..];
      } else {
        ValueWeight(s[1..], false);
      }
    }
  }

  lemma {:induction false} KeyWeight(s: string)
    requires ReadKey(s).0
    ensures Plain(s) == Plain(ReadKey(s).1) + 1 + Plain(ReadKey(s).2)
  {
    if s[0] != '=' {
      KeyWeight(s[1..]);
      var key := ReadKey(s[1..]).1;
      assert ([s[0]] + key)[1..] == key;
    }
  }

  /** What constraints weigh in a text. In the text they are written to, the apostrophes of their
      values do not count (`written`); in a text they are read from, every character of a value does. */
  function Weight(pairs: seq<Pair>, written: bool): nat {
    if pairs == [] then 0
    else
      Plain(pairs[0].0) + 1 + (if written then Plain(pairs[0].1) else |pairs[0].1|)
      + (if |pairs| == 1 then 0 else 1) + Weight(pairs[1..], written)
  }

  lemma {:induction false} ReadWeight(s: string)
    requires ParseRule(s).Constraints?
    ensures Weight(ParseRule(s).pairs, false) <= Plain(s)
    decreases |s|
  {
    if s != "" {
      var (_, key, afterKey) := ReadKey(s);
      var (_, value, rest) := ReadValue(afterKey, false);
      KeyWeight(s);
      ValueWeight(afterKey, false);
      var tail := if rest == "" then "" else rest[1..];
      ReadWeight(tail);
      var pairs := ParseRule(tail).pairs;
      assert ([(key, value)] + pairs)[1..] == pairs;
    }
  }

  lemma {:induction false} WrittenWeight(pairs: seq<Pair>)
    ensures Plain(Joined(pairs)) == Weight(pairs, true)
  {
    if pairs != [] {
      var p := pairs[0];
      PlainAppend(p.0, "='");
      PlainAppend(p.0 + "='", p.1);
      PlainAppend(p.0 + "='" + p.1, "'");
      assert Plain("='") == 1 by { assert "='"[1..] == "'"; }
      assert Plain(Quoted(p)) == Plain(p.0) + 1 + Plain(p.1);
      if |pairs| > 1 {
        WrittenWeight(pairs[1..]);
        PlainAppend(Quoted(p), ",");
        PlainAppend(Quoted(p) + ",", Joined(pairs[1..]));
      } else {
        assert pairs[1..] == [];
      }
    }
  }

  lemma {:induction false} SameWeight(pairs: seq<Pair>)
    ensures Weight(pairs, true) <= Weight(pairs, false)
    ensures Weight(pairs, true) == Weight(pairs, false) ==> forall i | 0 <= i < |pairs| :: '\'' !in pairs[i].1
  {
    if pairs != [] {
      SameWeight(pairs[1..]);
      PlainIsQuoteFree(pairs[0].1);
    }
  }

  /** Constraints that are read back as they were written have no apostrophe in any value. */
  lemma ReadBackIsQuoteFree(pairs: seq<Pair>)
    requires ParseRule(Joined(pairs)) == Constraints(pairs)
    ensures forall i | 0 <= i < |pairs| :: '\'' !in pairs[i].1
  {
    ReadWeight(Joined(pairs));
    WrittenWeight(pairs);
    SameWeight(pairs);
  }

  lemma FieldIsAmong(pairs: seq<Pair>, before: seq<Pair>, key: string, value: string, after: seq<Pair>)
    requires pairs == before + FieldPair(key, value) + after
    requires forall i | 0 <= i < |pairs| :: '\'' !in pairs[i].1
    ensures '\'' !in value
    ensures forall i | 0 <= i < |after| :: '\'' !in after[i].1
  {
    assert value != "" ==> pairs[|before|] == (key, value);
    forall i | 0 <= i < |after| ensures '\'' !in after[i].1 {
      assert after[i] == pairs[|before| + |FieldPair(key, value)| + i];
    }
  }

  lemma {:induction false} ArgsAreAmong(args: seq<QString>, from: nat)
    requires from <= |args| && forall i | 0 <= i < |ArgPairs(args, from)| :: '\'' !in ArgPairs(args, from)[i].1
    ensures forall i | from <= i < |args| :: '\'' !in args[i].Text()
    decreases |args| - from
  {
    if from < |args| {
      var rest, pairs := ArgPairs(args, from + 1), ArgPairs(args, from);
      var n := |pairs| - |rest|;
      assert forall i | 0 <= i < |rest| :: rest[i] == pairs[n + i];
      assert !args[from].Null? ==> pairs[0] == (ArgKey(from), args[from].text);
      ArgsAreAmong(args, from + 1);
    }
  }

  lemma PairsAreQuoteFree(sub: Subscription)
    requires forall i | 0 <= i < |Pairs(sub)| :: '\'' !in Pairs(sub)[i].1
    ensures QuoteFree(sub)
  {
    var first := [("type", "signal")];
    var args := ArgPairs(sub.args, 0);
    var member := FieldPair("member", sub.member) + args;
    var interface := FieldPair("interface", sub.interface) + member;
    var path := FieldPair("path", sub.path) + interface;
    assert Pairs(sub) == first + FieldPair("sender", sub.service) + path;
    FieldIsAmong(Pairs(sub), first, "sender", sub.service, path);
    assert path == [] + FieldPair("path", sub.path) + interface;
    FieldIsAmong(path, [], "path", sub.path, interface);
    assert interface == [] + FieldPair("interface", sub.interface) + member;
    FieldIsAmong(interface, [], "interface", sub.interface, member);
    assert member == [] + FieldPair("member", sub.member) + args;
    FieldIsAmong(member, [], "member", sub.member, args);
    ArgsAreAmong(sub.args, 0);
  }

  /** The bus reads back exactly the constraints that were asked for if and only if no field has an
      apostrophe. */
  lemma RuleRoundTrip(sub: Subscription)
    ensures ParseRule(RuleText(sub)) == Constraints(Pairs(sub)) <==> QuoteFree(sub)
    ensures var pairs := Pairs(sub);
      && Constraint(pairs, "type") == Str("signal")
      && Constraint(pairs, "sender") == FieldConstraint(sub.service)
      && Constraint(pairs, "path") == FieldConstraint(sub.path)
      && Constraint(pairs, "interface") == FieldConstraint(sub.interface)
      && Constraint(pairs, "member") == FieldConstraint(sub.member)
      && forall i: nat :: Constraint(pairs, ArgKey(i)) == ArgAt(sub.args, i)
  {
    hide Pairs, Constraint, ParseRule, QuoteFree, Joined, ArgKey;
    if QuoteFree(sub) {
      PairsAreWritable(sub);
      ParseJoined(Pairs(sub));
    } else if ParseRule(RuleText(sub)) == Constraints(Pairs(sub)) {
      ReadBackIsQuoteFree(Pairs(sub));
      PairsAreQuoteFree(sub);
    }
    ConstraintOfPairs(sub, "type");
    ConstraintOfPairs(sub, "sender");
    ConstraintOfPairs(sub, "path");
    ConstraintOfPairs(sub, "interface");
    ConstraintOfPairs(sub, "member");
    forall i: nat ensures Constraint(Pairs(sub), ArgKey(i)) == ArgAt(sub.args, i) {
      ConstraintOfPairs(sub, ArgKey(i));
    }
  }

  /** The same subscription, up to trailing null arguments. */
  ghost predicate SameSubscription(a: Subscription, b: Subscription) {
    && a.service == b.service && a.path == b.path && a.interface == b.interface && a.member == b.member
    && forall i: nat :: ArgAt(a.args, i) == ArgAt(b.args, i)
  }

  lemma {:induction false} ArgPairsOfSameArgs(a: seq<QString>, b: seq<QString>, from: nat)
    requires from <= |a| && from <= |b|
    requires forall i: nat :: ArgAt(a, i) == ArgAt(b, i)
    ensures ArgPairs(a, from) == ArgPairs(b, from)
    decreases |a| + |b| - 2 * from
  {
    if from < |a| && from < |b| {
      assert ArgAt(a, from) == ArgAt(b, from);
      ArgPairsOfSameArgs(a, b, from + 1);
    } else if from < |a| {
      ArgPairsOfNulls(a, from, b);
    } else if from < |b| {
      ArgPairsOfNulls(b, from, a);
    }
  }

  lemma {:induction false} ArgPairsOfNulls(a: seq<QString>, from: nat, shorter: seq<QString>)
    requires |shorter| <= from <= |a|
    requires forall i: nat :: ArgAt(a, i) == ArgAt(shorter, i)
    ensures ArgPairs(a, from) == []
    decreases |a| - from
  {
    if from < |a| {
      assert ArgAt(a, from) == ArgAt(shorter, from) == Null;
      ArgPairsOfNulls(a, from + 1, shorter);
    }
  }

  /** Two quote-free subscriptions share a rule, and so a reference count, exactly when they ask
      for the same thing. */
  lemma RulesShared(a: Subscription, b: Subscription)
    requires QuoteFree(a) && QuoteFree(b)
    ensures RuleText(a) == RuleText(b) <==> SameSubscription(a, b)
  {
    RuleRoundTrip(a);
    RuleRoundTrip(b);
    if RuleText(a) == RuleText(b) {
      forall i: nat ensures ArgAt(a.args, i) == ArgAt(b.args, i) {
        assert Constraint(Pairs(a), ArgKey(i)) == Constraint(Pairs(b), ArgKey(i));
      }
    }
    if SameSubscription(a, b) {
      ArgPairsOfSameArgs(a.args, b.args, 0);
    }
  }

  /** With a quote in an argument two different subscriptions can share a rule: for any texts x and y
      the bus filters arg0 and arg1 for both of these, although the first asked about arg0 only. */
  lemma QuotedArgumentsCanShareARule(sub: Subscription, x: string, y: string)
    ensures var a, b := sub.(args := [Str(x + "',arg1='" + y)]), sub.(args := [Str(x), Str(y)]);
      RuleText(a) == RuleText(b) && !SameSubscription(a, b) && !QuoteFree(a)
  {
    hide Joined;
    var a, b := sub.(args := [Str(x + "',arg1='" + y)]), sub.(args := [Str(x), Str(y)]);
    var fields := Pairs(sub.(args := []));
    var p, q, r := (ArgKey(0), x + "',arg1='" + y), (ArgKey(0), x), (ArgKey(1), y);
    assert ArgPairs(a.args, 1) == [] && ArgPairs(b.args, 2) == [] && ArgPairs(b.args, 1) == [r] + [];
    assert Pairs(a) == fields + [p];
    assert Pairs(b) == fields + [q] + [r];
    JoinedSnoc(fields, p);
    JoinedSnoc(fields, q);
    JoinedSnoc(fields + [q], r);
    SplitByQuote(x, y);
    assert Joined(fields) + "," + (Quoted(q) + "," + Quoted(r)) == Joined(fields) + "," + Quoted(q) + "," + Quoted(r);
    assert ArgAt(a.args, 1) != ArgAt(b.args, 1);
    var text := x + "',arg1='" + y;
    assert text[|x|] == '\'';
    assert a.args[0].Text() == text;
  }

  lemma SplitByQuote(x: string, y: string)
    ensures Quoted((ArgKey(0), x + "',arg1='" + y)) == Quoted((ArgKey(0), x)) + "," + Quoted((ArgKey(1), y))
  {
    assert ArgKey(1) == "arg1";
    assert "',arg1='" == "'" + "," + "arg1" + "='";
  }
}
