/** The originate dialstring: channel variables in braces, then the gateways to try. */
module Dialstring {
  import opened Wrappers
  import opened Text

  type Variables = map<string, string>

  /** An override as the database answers: the lookup of its value may fail. */
  datatype Override = Override(name: string, value: Option<string>)

  /** The defaults with every override that has a value, later ones winning. */
  function Overlay(defaults: Variables, overrides: seq<Override>): Variables {
    if overrides == [] then defaults
    else
      var vars := Overlay(defaults, overrides[..|overrides| - 1]);
      var o := overrides[|overrides| - 1];
      if o.value.Some? then vars[o.name := o.value.value] else vars
  }

  /** After overlaying, a variable has the value of its last successful override, or its default. */
  lemma {:induction false} LastOverrideWins(defaults: Variables, overrides: seq<Override>, name: string)
    ensures var vars := Overlay(defaults, overrides);
            || ((forall i | 0 <= i < |overrides| :: !Sets(overrides[i], name))
                && (name in vars <==> name in defaults) && (name in vars ==> vars[name] == defaults[name]))
            || (exists i | 0 <= i < |overrides| ::
                  Sets(overrides[i], name) && (forall j | i < j < |overrides| :: !Sets(overrides[j], name))
                  && name in vars && vars[name] == overrides[i].value.value)
  {
    if overrides != [] {
      var n := |overrides| - 1;
      LastOverrideWins(defaults, overrides[..n], name);
      if Sets(overrides[n], name) {
        assert Overlay(defaults, overrides)[name] == overrides[n].value.value;
      } else {
        assert forall i | 0 <= i < n :: overrides[..n][i] == overrides[i];
      }
    }
  }

  predicate Sets(o: Override, name: string) {
    o.name == name && o.value.Some?
  }

  // ---- Assembly ----

  function Item(name: string, value: string): string {
    name + "='" + value + "'"
  }

  function Items(vars: Variables, order: seq<string>): (items: seq<string>)
    requires forall name | name in order :: name in vars
    ensures |items| == |order|
    ensures forall i | 0 <= i < |order| :: items[i] == Item(order[i], vars[order[i]])
  {
    seq(|order|, i requires 0 <= i < |order| => Item(order[i], vars[order[i]]))
  }

  function Route(gateway: string, number: string): string {
    "sofia/gateway/" + gateway + "/" + number
  }

  function Routes(gateways: seq<string>, number: string): (routes: seq<string>)
    ensures |routes| == |gateways|
    ensures forall i | 0 <= i < |gateways| :: routes[i] == Route(gateways[i], number)
  {
    seq(|gateways|, i requires 0 <= i < |gateways| => Route(gateways[i], number))
  }

  function Assembled(vars: Variables, order: seq<string>, gateways: seq<string>, number: string): string
    requires forall name | name in order :: name in vars
  {
    "{" + Join(Items(vars, order), ',') + "}" + Join(Routes(gateways, number), '|')
  }

  lemma {:induction false} JoinIsEmpty(parts: seq<string>, c: char)
    requires forall p | p in parts :: p != ""
    ensures Join(parts, c) == "" <==> parts == []
  {
    if |parts| > 1 {
      assert |Join(parts, c)| > 0;
    } else if |parts| == 1 {
      assert parts[0] in parts;
    }
  }

  /** Writing parts to a buffer, with a separator whenever the buffer has something in it already. */
  method WriteSeparated(parts: seq<string>, c: char) returns (buffer: string)
    requires forall p | p in parts :: p != ""
    ensures buffer == Join(parts, c)
  {
    buffer := "";
    for i := 0 to |parts|
      invariant buffer == Join(parts[..i], c)
    {
      assert parts[..i + 1] == parts[..i] + [parts[i]];
      JoinSnoc(parts[..i], parts[i], c);
      assert forall p | p in parts[..i] :: p in parts;
      JoinIsEmpty(parts[..i], c);
      assert parts[i] in parts;
      if |buffer| > 0 {
        buffer := buffer + [c];
      }
      buffer := buffer + parts[i];
    }
    assert parts[..|parts|] == parts;
  }

  /** `order` is the order in which the map happens to be iterated. */
  method Assemble(vars: Variables, order: seq<string>, gateways: seq<string>, number: string) returns (s: string)
    requires forall name | name in order :: name in vars
    ensures s == Assembled(vars, order, gateways, number)
  {
    hide Join;
    var variables := WriteSeparated(Items(vars, order), ',');
    var routes := WriteSeparated(Routes(gateways, number), '|');
    return "{" + variables + "}" + routes;
  }

  // ---- Reading it back ----

  /** Where a call is sent: the gateway, and the number it is to dial. */
  datatype Target = Target(gateway: string, number: string)

  datatype Dial = Dial(vars: Variables, targets: seq<Target>)

  /** One item: the name before the first '=', the value between single quotes after it. */
  function ReadItem(item: string): Option<(string, string)> {
    var i := IndexOf(item, '=');
    if i + 3 <= |item| && item[i + 1] == '\'' && item[|item| - 1] == '\'' then
      Some((item[..i], item[i + 2..|item| - 1]))
    else None
  }

  function ReadItems(items: seq<string>): Option<Variables> {
    if items == [] then Some(map[])
    else
      var before, last := ReadItems(items[..|items| - 1]), ReadItem(items[|items| - 1]);
      if before.None? || last.None? then None else Some(before.value[last.value.0 := last.value.1])
  }

  /** One route as FreeSWITCH reads it: the endpoint sofia/gateway, then the gateway, then the number. */
  function ReadRoute(route: string): Option<Target> {
    if |route| < 14 || route[..14] != "sofia/gateway/" then None
    else
      var rest := route[14..];
      var i := IndexOf(rest, '/');
      if i == |rest| then None else Some(Target(rest[..i], rest[i + 1..]))
  }

  function ReadRoutes(routes: seq<string>): Option<seq<Target>> {
    if routes == [] then Some([])
    else
      var before, last := ReadRoutes(routes[..|routes| - 1]), ReadRoute(routes[|routes| - 1]);
      if before.None? || last.None? then None else Some(before.value + [last.value])
  }

  function ReadParts(text: string, c: char): seq<string> {
    if text == "" then [] else Split(text, c)
  }

  /** Reads the variables between the braces, and the routes that follow. */
  function Read(s: string): Option<Dial> {
    var end := IndexOf(s, '}');
    if s == "" || s[0] != '{' || end == |s| then None
    else
      var vars := ReadItems(ReadParts(s[1..end], ','));
      var targets := ReadRoutes(ReadParts(s[end + 1..], '|'));
      if vars.None? || targets.None? then None else Some(Dial(vars.value, targets.value))
  }

  /** Text that does not interfere with the syntax of the variables. */
  predicate PlainName(name: string) {
    '=' !in name && ',' !in name && '}' !in name
  }

  predicate PlainValue(value: string) {
    ',' !in value && '}' !in value
  }

  lemma ReadOfItem(name: string, value: string)
    requires '=' !in name
    ensures ReadItem(Item(name, value)) == Some((name, value))
  {
    var item := Item(name, value);
    IndexOfConcat(name, '=', "'" + value + "'");
    assert name + ['='] + ("'" + value + "'") == item;
    assert item[|name| + 2..|item| - 1] == value;
  }

  function Restricted(vars: Variables, order: seq<string>): Variables {
    map name | name in order && name in vars :: vars[name]
  }

  lemma RestrictedNext(vars: Variables, order: seq<string>, name: string)
    requires name in vars
    ensures Restricted(vars, order + [name]) == Restricted(vars, order)[name := vars[name]]
  {
  }

  lemma {:induction false} ReadOfItems(vars: Variables, order: seq<string>)
    requires forall name | name in order :: name in vars && PlainName(name)
    ensures ReadItems(Items(vars, order)) == Some(Restricted(vars, order))
  {
    hide Item;
    hide ReadItem;
    hide Restricted;
    if order == [] {
      RestrictedEmpty(vars);
    } else {
      var n := |order| - 1;
      assert forall name | name in order[..n] :: name in order;
      ReadOfItems(vars, order[..n]);
      assert Items(vars, order)[..n] == Items(vars, order[..n]);
      assert order[n] in order;
      ReadOfItem(order[n], vars[order[n]]);
      assert order == order[..n] + [order[n]];
      RestrictedNext(vars, order[..n], order[n]);
    }
  }

  lemma RestrictedEmpty(vars: Variables)
    ensures Restricted(vars, []) == map[]
  {
  }

  lemma ReadOfParts(parts: seq<string>, c: char)
    requires forall p | p in parts :: p != "" && c !in p
    ensures ReadParts(Join(parts, c), c) == parts
  {
    hide Join;
    hide Split;
    JoinIsEmpty(parts, c);
    if parts != [] {
      SplitJoin(parts, c);
    } else {
      EmptyJoin(c);
    }
  }

  lemma EmptyJoin(c: char)
    ensures Join([], c) == ""
  {
  }

  lemma {:induction false} JoinAvoids(parts: seq<string>, c: char, avoid: char)
    requires avoid != c && forall p | p in parts :: avoid !in p
    ensures avoid !in Join(parts, c)
  {
    if |parts| > 1 {
      JoinAvoids(parts[1..], c, avoid);
    }
  }

  lemma ReadOfWhole(inner: string, rest: string)
    requires '}' !in inner
    ensures Read("{" + inner + "}" + rest) ==
            var vars, targets := ReadItems(ReadParts(inner, ',')), ReadRoutes(ReadParts(rest, '|'));
            if vars.None? || targets.None? then None else Some(Dial(vars.value, targets.value))
  {
    hide ReadItems;
    hide ReadRoutes;
    hide ReadParts;
    hide IndexOf;
    var s := "{" + inner + "}" + rest;
    IndexOfConcat("{" + inner, '}', rest);
    assert ("{" + inner) + ['}'] + rest == s;
    assert s[1..|inner| + 1] == inner;
    assert s[|inner| + 2..] == rest;
  }

  lemma ReadOfRoute(gateway: string, number: string)
    requires '/' !in gateway
    ensures ReadRoute(Route(gateway, number)) == Some(Target(gateway, number))
  {
    hide IndexOf;
    var route := Route(gateway, number);
    assert |"sofia/gateway/"| == 14;
    assert route == "sofia/gateway/" + (gateway + ['/'] + number);
    assert route[14..] == gateway + ['/'] + number;
    IndexOfConcat(gateway, '/', number);
  }

  lemma {:induction false} ReadOfRoutes(gateways: seq<string>, number: string)
    requires forall g | g in gateways :: '/' !in g
    ensures var r := ReadRoutes(Routes(gateways, number));
            && r.Some? && |r.value| == |gateways|
            && forall i | 0 <= i < |gateways| :: r.value[i] == Target(gateways[i], number)
  {
    hide ReadRoute;
    hide Route;
    if gateways != [] {
      var n := |gateways| - 1;
      assert forall g | g in gateways[..n] :: g in gateways;
      ReadOfRoutes(gateways[..n], number);
      assert Routes(gateways, number)[..n] == Routes(gateways[..n], number);
      assert gateways[n] in gateways;
      ReadOfRoute(gateways[n], number);
    }
  }

  /** The texts that the dialstring's own syntax leaves room for. */
  predicate PlainVariables(vars: Variables) {
    forall name | name in vars :: PlainName(name) && PlainValue(vars[name])
  }

  predicate PlainTargets(gateways: seq<string>, number: string) {
    '|' !in number && forall g | g in gateways :: '|' !in g && '/' !in g
  }

  /** Whatever order the variables are written in, reading the dialstring gives back exactly the
      variables, and the gateways in their order, each with the number. */
  lemma DialstringRoundTrip(vars: Variables, order: seq<string>, gateways: seq<string>, number: string)
    requires forall name :: name in order <==> name in vars
    requires PlainVariables(vars) && PlainTargets(gateways, number)
    ensures var r := Read(Assembled(vars, order, gateways, number));
            && r.Some? && r.value.vars == vars && |r.value.targets| == |gateways|
            && forall i | 0 <= i < |gateways| :: r.value.targets[i] == Target(gateways[i], number)
  {
    hide Join;
    hide Read;
    hide ReadItems;
    hide ReadRoutes;
    hide ReadParts;
    hide PlainName;
    hide PlainValue;
    var items, routes := Items(vars, order), Routes(gateways, number);
    ItemsArePlain(vars, order);
    RoutesArePlain(gateways, number);
    JoinAvoids(items, ',', '}');
    ReadOfWhole(Join(items, ','), Join(routes, '|'));
    ReadOfParts(items, ',');
    ReadOfParts(routes, '|');
    ReadOfItems(vars, order);
    ReadOfRoutes(gateways, number);
    assert Restricted(vars, order) == vars;
  }

  /** Two calls with the same dialstring have the same variables and try the same gateways in the same
      order; if there is any gateway they dial the same number. */
  lemma DialstringDetermines(vars: Variables, order: seq<string>, gateways: seq<string>, number: string,
                             vars': Variables, order': seq<string>, gateways': seq<string>, number': string)
    requires forall name :: name in order <==> name in vars
    requires forall name :: name in order' <==> name in vars'
    requires PlainVariables(vars) && PlainTargets(gateways, number)
    requires PlainVariables(vars') && PlainTargets(gateways', number')
    requires Assembled(vars, order, gateways, number) == Assembled(vars', order', gateways', number')
    ensures vars == vars' && gateways == gateways' && (gateways != [] ==> number == number')
  {
    hide Assembled;
    hide Read;
    hide PlainVariables;
    hide PlainTargets;
    DialstringRoundTrip(vars, order, gateways, number);
    DialstringRoundTrip(vars', order', gateways', number');
    var targets := Read(Assembled(vars, order, gateways, number)).value.targets;
    assert forall i | 0 <= i < |gateways| :: targets[i].gateway == gateways[i] == gateways'[i];
    assert gateways != [] ==> targets[0].number == number == number';
  }

  lemma ItemsArePlain(vars: Variables, order: seq<string>)
    requires forall name | name in order :: name in vars && PlainName(name) && PlainValue(vars[name])
    ensures forall p | p in Items(vars, order) :: p != "" && ',' !in p && '}' !in p
  {
    forall p | p in Items(vars, order) ensures p != "" && ',' !in p && '}' !in p {
      var i :| 0 <= i < |order| && p == Items(vars, order)[i];
      assert order[i] in order;
      PlainItem(order[i], vars[order[i]]);
    }
  }

  lemma PlainItem(name: string, value: string)
    requires PlainName(name) && PlainValue(value)
    ensures Item(name, value) != "" && ',' !in Item(name, value) && '}' !in Item(name, value)
  {
  }

  lemma RoutesArePlain(gateways: seq<string>, number: string)
    requires '|' !in number && forall g | g in gateways :: '|' !in g
    ensures forall p | p in Routes(gateways, number) :: p != "" && '|' !in p
  {
    forall p | p in Routes(gateways, number) ensures p != "" && '|' !in p {
      var i :| 0 <= i < |gateways| && p == Routes(gateways, number)[i];
      assert gateways[i] in gateways;
      PlainRoute(gateways[i], number);
    }
  }

  lemma PlainRoute(gateway: string, number: string)
    requires '|' !in number && '|' !in gateway
    ensures Route(gateway, number) != "" && '|' !in Route(gateway, number)
  {
    assert '|' !in "sofia/gateway/";
  }
}
