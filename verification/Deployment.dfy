/** The deployment policy: dotted fields nested into objects and flattened back, and three layers of values
    resolved field by field. */
module Deployment {
  import opened Wrappers
  import opened Paths

  datatype Value = Null | Text(text: string) | Number(n: int) | Flag(b: bool) | Other(json: string)

  /** A JSON object in the order its keys were first set. */
  datatype Json = Leaf(value: Value) | Node(items: seq<Item>)
  datatype Item = Item(key: string, sub: Json)

  datatype Field = Field(name: string, value: Value)

  function Get(items: seq<Item>, key: string): Option<Json> {
    if items == [] then None
    else
      var last := items[|items| - 1];
      if last.key == key then Some(last.sub) else Get(items[..|items| - 1], key)
  }

  /** Assignment to a key: in place where the key is there, at the end where it is not. */
  function Set(items: seq<Item>, key: string, sub: Json): seq<Item> {
    if items == [] then [Item(key, sub)]
    else
      var n := |items| - 1;
      if items[n].key == key then items[..n] + [Item(key, sub)]
      else Set(items[..n], key, sub) + [items[n]]
  }

  /** Set a value at a path, making objects on the way. None is the fault of a parent that is no object. */
  function Put(items: seq<Item>, path: seq<string>, value: Value): Option<seq<Item>>
    requires path != []
    decreases |path|
  {
    if |path| == 1 then Some(Set(items, path[0], Leaf(value)))
    else
      var inner := Child(items, path[0]);
      var below := if inner.Some? then Put(inner.value, path[1..], value) else None;
      if below.Some? then Some(Set(items, path[0], Node(below.value))) else None
  }

  /** The object at a key, an empty one where there is nothing; None where there is a value. */
  function Child(items: seq<Item>, key: string): Option<seq<Item>> {
    match Get(items, key)
    case None => Some([])
    case Some(Node(inner)) => Some(inner)
    case Some(Leaf(_)) => None
  }

  /** The nested form of some fields, or a fault. */
  function Nested(fields: seq<Field>): Option<seq<Item>> {
    if fields == [] then Some([])
    else
      var n := |fields| - 1;
      var before := Nested(fields[..n]);
      if before.None? then None else Put(before.value, Split(fields[n].name), fields[n].value)
  }

  method Nest(fields: seq<Field>) returns (nested: Option<seq<Item>>)
    ensures nested == Nested(fields)
  {
    nested := Some([]);
    for i := 0 to |fields|
      invariant nested == Nested(fields[..i])
    {
      assert fields[..i + 1][..i] == fields[..i];
      if nested.Some? {
        nested := Put(nested.value, Split(fields[i].name), fields[i].value);
      }
    }
    assert fields[..|fields|] == fields;
  }

  /** Every leaf under its dotted name; a later name that repeats an earlier one wins. */
  function Flat(items: seq<Item>, prefix: string): map<string, Value>
    decreases items
  {
    if items == [] then map[]
    else
      var n := |items| - 1;
      Flat(items[..n], prefix) + FlatItem(items[n], prefix)
  }

  function FlatItem(item: Item, prefix: string): map<string, Value>
    decreases item
  {
    match item.sub
    case Leaf(v) => map[prefix + item.key := v]
    case Node(inner) => Flat(inner, prefix + item.key + DOT)
  }

  method Flatten(items: seq<Item>, prefix: string) returns (flat: map<string, Value>)
    ensures flat == Flat(items, prefix)
    decreases items
  {
    flat := map[];
    for i := 0 to |items|
      invariant flat == Flat(items[..i], prefix)
    {
      assert items[..i + 1][..i] == items[..i];
      var name := prefix + items[i].key;
      match items[i].sub {
        case Leaf(v) => flat := flat[name := v];
        case Node(inner) =>
          var below := Flatten(inner, name + DOT);
          flat := flat + below;
      }
    }
    assert items[..|items|] == items;
  }

  /** The value at a path; None where the path is missing or ends at an object. */
  function At(items: seq<Item>, path: seq<string>): Option<Value>
    requires path != []
    decreases |path|
  {
    match Get(items, path[0])
    case None => None
    case Some(Leaf(v)) => if |path| == 1 then Some(v) else None
    case Some(Node(inner)) => if |path| == 1 then None else At(inner, path[1..])
  }

  lemma {:induction false} SetThenGet(items: seq<Item>, key: string, sub: Json, other: string)
    ensures Get(Set(items, key, sub), other) == if other == key then Some(sub) else Get(items, other)
  {
    if items != [] {
      var n := |items| - 1;
      var front := items[..n];
      if items[n].key == key {
        assert (front + [Item(key, sub)])[..n] == front;
      } else {
        SetThenGet(front, key, sub, other);
        var longer := Set(front, key, sub);
        assert (longer + [items[n]])[..|longer|] == longer;
      }
    }
  }

  lemma SameHead(path: seq<string>, q: seq<string>)
    requires path != [] && q != []
    ensures path == q <==> path[0] == q[0] && path[1..] == q[1..]
    ensures path < q <==> path[0] == q[0] && path[1..] < q[1..]
  {
    assert path == [path[0]] + path[1..] && q == [q[0]] + q[1..];
  }

  lemma NothingIn(q: seq<string>)
    requires q != []
    ensures At([], q) == None
  {
  }

  /** What setting one path does to every path: it holds the value, everything under it is gone, and nothing
      else moves. */
  lemma {:induction false} PutThenAt(items: seq<Item>, path: seq<string>, value: Value, q: seq<string>)
    requires path != [] && q != [] && Put(items, path, value).Some?
    ensures At(Put(items, path, value).value, q)
            == if q == path then Some(value) else if path < q then None else At(items, q)
    decreases |path|
  {
    var key := path[0];
    SameHead(path, q);
    if |path| == 1 {
      SetThenGet(items, path[0], Leaf(value), q[0]);
    } else {
      var inner := Child(items, path[0]).value;
      var below := Put(inner, path[1..], value).value;
      SetThenGet(items, path[0], Node(below), q[0]);
      if q[0] == path[0] {
        AtBelow(items, q);
        AtBelow(Put(items, path, value).value, q);
        if |q| > 1 {
          PutThenAt(inner, path[1..], value, q[1..]);
        }
      } else {
        SameAt(items, Put(items, path, value).value, q);
      }
    }
  }

  lemma AtBelow(items: seq<Item>, q: seq<string>)
    requires q != [] && Child(items, q[0]).Some?
    ensures At(items, q) == if |q| == 1 then None else At(Child(items, q[0]).value, q[1..])
  {
    if |q| > 1 { NothingIn(q[1..]); }
  }

  lemma SameAt(a: seq<Item>, b: seq<Item>, q: seq<string>)
    requires q != [] && Get(a, q[0]) == Get(b, q[0])
    ensures At(a, q) == At(b, q)
  {
  }

  /** Setting a path faults exactly when one of its proper parents already holds a value. */
  lemma {:induction false} PutFaultsIff(items: seq<Item>, path: seq<string>, value: Value)
    requires path != []
    ensures Put(items, path, value).None?
            <==> exists m :: 0 < m < |path| && At(items, path[..m]).Some?
    decreases |path|
  {
    if |path| > 1 {
      var inner, rest := Child(items, path[0]), path[1..];
      assert path[..1] == [path[0]];
      if inner.None? {
        assert At(items, path[..1]).Some?;
      } else {
        PutFaultsIff(inner.value, rest, value);
        forall m | 0 < m < |path|
          ensures At(items, path[..m]) == if m == 1 then None else At(inner.value, rest[..m - 1])
        {
          AtBelow(items, path[..m]);
          assert path[..m][1..] == rest[..m - 1];
        }
        if m :| 0 < m < |rest| && At(inner.value, rest[..m]).Some? {
          assert At(items, path[..m + 1]).Some?;
        }
      }
    }
  }

  /** Of two paths, one under the other, at most one holds a value. */
  lemma {:induction false} LeavesApart(items: seq<Item>, p: seq<string>, q: seq<string>)
    requires p != [] && p < q && At(items, p).Some?
    ensures At(items, q).None?
    decreases |p|
  {
    if |p| > 1 {
      SameHead(p, q);
      LeavesApart(Child(items, p[0]).value, p[1..], q[1..]);
    }
  }

  // ---------------------------------------------------------------- flattening reads every leaf

  predicate Keyed(items: seq<Item>, key: string) { exists i :: 0 <= i < |items| && items[i].key == key }

  /** What nesting builds: one entry a key, and no dot in any key. */
  predicate Clean(items: seq<Item>)
    decreases items
  {
    items == [] ||
    var n := |items| - 1;
    Clean(items[..n]) && !Keyed(items[..n], items[n].key) && Dotless(items[n].key) && CleanJson(items[n].sub)
  }

  predicate CleanJson(t: Json)
    decreases t
  {
    t.Node? ==> Clean(t.items)
  }

  lemma {:induction false} GetIffKeyed(items: seq<Item>, key: string)
    ensures Get(items, key).Some? <==> Keyed(items, key)
  {
    if items != [] {
      var n := |items| - 1;
      GetIffKeyed(items[..n], key);
      if items[n].key == key {
        assert Keyed(items, key);
      } else if Keyed(items[..n], key) {
        var i :| 0 <= i < n && items[..n][i].key == key;
        assert items[i].key == key;
      }
    }
  }

  /** The value at a path below a child. */
  function AtJson(t: Json, path: seq<string>): Option<Value> {
    match t
    case Leaf(v) => if path == [] then Some(v) else None
    case Node(inner) => if path == [] then None else At(inner, path)
  }

  /** A child flattens to the names that start with its key, each at the value it holds. */
  lemma FlatItemIs(item: Item, prefix: string, s: string)
    requires Dotless(item.key)
    requires item.sub.Node? ==> Flattens(item.sub.items, prefix + item.key + DOT, s)
    ensures var flat, here := FlatItem(item, prefix), prefix <= s;
            var parts := if here then Split(s[|prefix|..]) else [""];
            && (s in flat <==> here && parts[0] == item.key && AtJson(item.sub, parts[1..]).Some?)
            && (s in flat ==> AtJson(item.sub, parts[1..]) == Some(flat[s]))
  {
    var key, name := item.key, prefix + item.key;
    if prefix <= s {
      var x := s[|prefix|..];
      assert s == prefix + x;
      SplitHead(x);
      SplitDotless(key);
      assert x == key <==> s == name;
      if name + DOT <= s {
        var rest := s[|name| + 1..];
        assert x == key + DOT + rest;
        SplitCons(key, rest);
      }
    }
  }

  /** A name is in the flat form exactly when its path holds a value, and then it is that value. */
  predicate Flattens(items: seq<Item>, prefix: string, s: string) {
    var flat := Flat(items, prefix);
    if prefix <= s then
      var value := At(items, Split(s[|prefix|..]));
      (s in flat <==> value.Some?) && (s in flat ==> value == Some(flat[s]))
    else s !in flat
  }

  lemma {:induction false} FlatIsLeaves(items: seq<Item>, prefix: string, s: string)
    requires Clean(items)
    ensures Flattens(items, prefix, s)
    decreases items
  {
    if items != [] {
      var n := |items| - 1;
      var last := items[n];
      FlatIsLeaves(items[..n], prefix, s);
      if last.sub.Node? {
        FlatIsLeaves(last.sub.items, prefix + last.key + DOT, s);
      }
      FlatItemIs(last, prefix, s);
      GetIffKeyed(items[..n], last.key);
      if prefix <= s {
        AtLast(items, Split(s[|prefix|..]));
      }
    }
  }

  lemma AtLast(items: seq<Item>, path: seq<string>)
    requires items != [] && path != []
    ensures var last := items[|items| - 1];
            At(items, path) == if last.key == path[0] then AtJson(last.sub, path[1..])
                               else At(items[..|items| - 1], path)
  {
  }

  lemma {:induction false} SetIsClean(items: seq<Item>, key: string, sub: Json)
    requires Clean(items) && Dotless(key) && CleanJson(sub)
    ensures Clean(Set(items, key, sub))
    ensures forall other :: Keyed(Set(items, key, sub), other) <==> Keyed(items, other) || other == key
  {
    forall other
      ensures Keyed(Set(items, key, sub), other) <==> Keyed(items, other) || other == key
    {
      SetThenGet(items, key, sub, other);
      GetIffKeyed(items, other);
      GetIffKeyed(Set(items, key, sub), other);
    }
    if items != [] {
      var n := |items| - 1;
      if items[n].key == key {
        assert (items[..n] + [Item(key, sub)])[..n] == items[..n];
      } else {
        SetIsClean(items[..n], key, sub);
        var longer := Set(items[..n], key, sub);
        assert (longer + [items[n]])[..|longer|] == longer;
      }
    } else {
      assert [Item(key, sub)][..0] == [];
    }
  }

  lemma {:induction false} ChildIsClean(items: seq<Item>, key: string)
    requires Clean(items)
    ensures Child(items, key).Some? ==> Clean(Child(items, key).value)
  {
    if items != [] && items[|items| - 1].key != key {
      ChildIsClean(items[..|items| - 1], key);
    }
  }

  lemma {:induction false} PutIsClean(items: seq<Item>, path: seq<string>, value: Value)
    requires Clean(items) && path != [] && AllDotless(path) && Put(items, path, value).Some?
    ensures Clean(Put(items, path, value).value)
    decreases |path|
  {
    if |path| == 1 {
      SetIsClean(items, path[0], Leaf(value));
    } else {
      ChildIsClean(items, path[0]);
      var inner := Child(items, path[0]).value;
      PutIsClean(inner, path[1..], value);
      SetIsClean(items, path[0], Node(Put(inner, path[1..], value).value));
    }
  }

  lemma {:induction false} NestedIsClean(fields: seq<Field>)
    requires Nested(fields).Some?
    ensures Clean(Nested(fields).value)
  {
    if fields != [] {
      var n := |fields| - 1;
      NestedIsClean(fields[..n]);
      JoinSplit(fields[n].name);
      PutIsClean(Nested(fields[..n]).value, Split(fields[n].name), fields[n].value);
    }
  }

  // ---------------------------------------------------------------- the round trip

  function AsMap(fields: seq<Field>): map<string, Value> {
    if fields == [] then map[]
    else var n := |fields| - 1; AsMap(fields[..n])[fields[n].name := fields[n].value]
  }

  predicate DistinctNames(fields: seq<Field>) {
    forall i, j :: 0 <= i < j < |fields| ==> fields[i].name != fields[j].name
  }

  /** No field is another field with more parts after a dot. */
  predicate PrefixFree(fields: seq<Field>) {
    forall i, j :: 0 <= i < |fields| && 0 <= j < |fields| ==> !Under(fields[i].name, fields[j].name)
  }

  /** The value a list of fields gives a path. */
  function Given(fields: seq<Field>, path: seq<string>): Option<Value> {
    if fields == [] then None
    else
      var last := fields[|fields| - 1];
      if Split(last.name) == path then Some(last.value) else Given(fields[..|fields| - 1], path)
  }

  lemma {:induction false} GivenByOne(fields: seq<Field>, path: seq<string>)
    requires Given(fields, path).Some?
    ensures exists i :: 0 <= i < |fields| && Split(fields[i].name) == path
  {
    var n := |fields| - 1;
    if Split(fields[n].name) != path {
      GivenByOne(fields[..n], path);
      var i :| 0 <= i < n && Split(fields[..n][i].name) == path;
      assert Split(fields[i].name) == path;
    }
  }

  lemma {:induction false} GivenToEach(fields: seq<Field>, i: nat)
    requires DistinctNames(fields) && i < |fields|
    ensures Given(fields, Split(fields[i].name)) == Some(fields[i].value)
  {
    var n := |fields| - 1;
    if i < n {
      if Split(fields[n].name) == Split(fields[i].name) {
        SplitIsInjective(fields[n].name, fields[i].name);
      }
      GivenToEach(fields[..n], i);
    }
  }

  lemma {:induction false} AsMapIsGiven(fields: seq<Field>, s: string)
    ensures s in AsMap(fields) <==> Given(fields, Split(s)).Some?
    ensures s in AsMap(fields) ==> Given(fields, Split(s)) == Some(AsMap(fields)[s])
  {
    if fields != [] {
      var n := |fields| - 1;
      AsMapIsGiven(fields[..n], s);
      if Split(fields[n].name) == Split(s) {
        SplitIsInjective(fields[n].name, s);
      }
    }
  }

  lemma NoGivenAround(fields: seq<Field>, n: nat, q: seq<string>)
    requires n < |fields| && PrefixFree(fields) && q != []
    requires q < Split(fields[n].name) || Split(fields[n].name) < q
    ensures Given(fields[..n], q).None?
  {
    if Given(fields[..n], q).Some? {
      GivenByOne(fields[..n], q);
      var i :| 0 <= i < n && Split(fields[..n][i].name) == q;
      UnderIffPartsExtend(fields[i].name, fields[n].name);
      UnderIffPartsExtend(fields[n].name, fields[i].name);
    }
  }

  /** Prefix-free fields nest without a fault, and the nested form holds each path's value and no other. */
  lemma {:induction false} NestedHolds(fields: seq<Field>, q: seq<string>)
    requires PrefixFree(fields) && q != []
    ensures Nested(fields).Some? && At(Nested(fields).value, q) == Given(fields, q)
  {
    if fields != [] {
      var n := |fields| - 1;
      var front, path, value := fields[..n], Split(fields[n].name), fields[n].value;
      NestedHolds(front, q);
      var before := Nested(front).value;
      forall m | 0 < m < |path|
        ensures At(before, path[..m]).None?
      {
        NestedHolds(front, path[..m]);
        NoGivenAround(fields, n, path[..m]);
      }
      PutFaultsIff(before, path, value);
      PutThenAt(before, path, value, q);
      if path < q {
        NoGivenAround(fields, n, q);
      }
    }
  }

  predicate RoundTrips(fields: seq<Field>) {
    Nested(fields).Some? && Flat(Nested(fields).value, "") == AsMap(fields)
  }

  /** Flattening the nested form gives the fields back exactly when no field lies under another. */
  lemma RoundTripIffPrefixFree(fields: seq<Field>)
    requires DistinctNames(fields)
    ensures RoundTrips(fields) <==> PrefixFree(fields)
  {
    if PrefixFree(fields) {
      NestedHolds(fields, [""]);
      NestedIsClean(fields);
      var nested := Nested(fields).value;
      forall s: string
        ensures s in Flat(nested, "") <==> s in AsMap(fields)
        ensures s in AsMap(fields) ==> Flat(nested, "")[s] == AsMap(fields)[s]
      {
        FlatIsLeaves(nested, "", s);
        assert s[|""|..] == s;
        NestedHolds(fields, Split(s));
        AsMapIsGiven(fields, s);
      }
    }
    if RoundTrips(fields) {
      forall i, j | 0 <= i < |fields| && 0 <= j < |fields|
        ensures !Under(fields[i].name, fields[j].name)
      {
        HeldAfterRoundTrip(fields, i);
        HeldAfterRoundTrip(fields, j);
        UnderIffPartsExtend(fields[i].name, fields[j].name);
        if Under(fields[i].name, fields[j].name) {
          LeavesApart(Nested(fields).value, Split(fields[i].name), Split(fields[j].name));
        }
      }
    }
  }

  lemma HeldAfterRoundTrip(fields: seq<Field>, i: nat)
    requires DistinctNames(fields) && RoundTrips(fields) && i < |fields|
    ensures At(Nested(fields).value, Split(fields[i].name)).Some?
  {
    var s := fields[i].name;
    GivenToEach(fields, i);
    AsMapIsGiven(fields, s);
    NestedIsClean(fields);
    FlatIsLeaves(Nested(fields).value, "", s);
    assert s[|""|..] == s;
  }

  // ---------------------------------------------------------------- lookup and resolution

  /** What indexing part by part reaches: a value, an object, or None for a missing key or a part taken of
      a value. */
  function Walked(t: Json, path: seq<string>): Option<Json>
    decreases |path|
  {
    if path == [] then Some(t)
    else if t.Leaf? || Get(t.items, path[0]).None? then None
    else Walked(Get(t.items, path[0]).value, path[1..])
  }

  method Lookup(values: seq<Item>, field: string) returns (found: Option<Json>)
    ensures found == Walked(Node(values), Split(field))
    ensures At(values, Split(field)).Some? <==> found.Some? && found.value.Leaf?
    ensures At(values, Split(field)).Some? ==> found == Some(Leaf(At(values, Split(field)).value))
  {
    var parts := Split(field);
    found := Some(Node(values));
    var i := 0;
    while i < |parts| && found.Some?
      invariant 0 <= i <= |parts|
      invariant found.Some? ==> Walked(found.value, parts[i..]) == Walked(Node(values), parts)
      invariant found.None? ==> Walked(Node(values), parts) == None
    {
      assert parts[i..][1..] == parts[i + 1..];
      found := if found.value.Leaf? then None else Get(found.value.items, parts[i]);
      i := i + 1;
    }
    WalkedIsAt(values, parts);
  }

  lemma {:induction false} WalkedIsAt(items: seq<Item>, path: seq<string>)
    requires path != []
    ensures At(items, path)
            == match Walked(Node(items), path) case Some(Leaf(v)) => Some(v) case _ => None
    decreases |path|
  {
    var next := Get(items, path[0]);
    if next.Some? && next.value.Node? && |path| > 1 {
      WalkedIsAt(next.value.items, path[1..]);
    }
  }

  datatype Resolution<T> = Resolved(value: T) | Refused(field: string) | Faulted

  predicate Known(defaults: seq<Field>, name: string) {
    exists i :: 0 <= i < |defaults| && defaults[i].name == name
  }

  /** A file's field the schema does not know, or whose check refuses its value. */
  predicate BadField(flat: map<string, Value>, defaults: seq<Field>, check: (string, Value) -> Option<Value>,
                     name: string)
  {
    name in flat && (!Known(defaults, name) || check(name, flat[name]).None?)
  }

  /** The file's own fields, checked. A missing file has none. */
  method Load(file: Option<seq<Item>>, defaults: seq<Field>, check: (string, Value) -> Option<Value>)
    returns (r: Resolution<map<string, Value>>)
    ensures !r.Faulted?
    ensures var flat := if file.None? then map[] else Flat(file.value, "");
            && (r.Refused? ==> BadField(flat, defaults, check, r.field))
            && (r.Resolved? ==> r.value.Keys == flat.Keys
                                && forall k :: k in flat ==> !BadField(flat, defaults, check, k)
                                                             && r.value[k] == check(k, flat[k]).value)
  {
    var flat := map[];
    if file.Some? {
      flat := Flatten(file.value, "");
    }
    var checked: map<string, Value> := map[];
    var left := flat.Keys;
    while left != {}
      invariant left <= flat.Keys && checked.Keys == flat.Keys - left
      invariant forall k :: k in checked ==>
                  !BadField(flat, defaults, check, k) && checked[k] == check(k, flat[k]).value
      decreases left
    {
      var name :| name in left;
      if !Known(defaults, name) || check(name, flat[name]).None? {
        return Refused(name);
      }
      checked := checked[name := check(name, flat[name]).value];
      left := left - {name};
    }
    r := Resolved(checked);
  }

  predicate SetIn(env: map<string, string>, name: string) { name in env && env[name] != "" }

  /** Environment over file over default, for one field. */
  function Layered(d: Field, file: map<string, Value>, env: map<string, string>,
                   check: (string, Value) -> Option<Value>): Value
  {
    if SetIn(env, d.name) && check(d.name, Text(env[d.name])).Some? then check(d.name, Text(env[d.name])).value
    else if d.name in file then file[d.name]
    else d.value
  }

  /** This is the value the layers give a field: what its check makes of the variable where one is set and not
      empty, else of what the file says, else the default. */
  predicate Wins(v: Value, d: Field, flat: map<string, Value>, env: map<string, string>,
                 check: (string, Value) -> Option<Value>)
  {
    if d.name in env && env[d.name] != "" then check(d.name, Text(env[d.name])) == Some(v)
    else if d.name in flat then check(d.name, flat[d.name]) == Some(v)
    else v == d.value
  }

  const SCRIPTS_ROOT: string := "scripts_root"
  const CODE_ROOT: string := "code_root"

  /** The layered value of a field, the scripts root derived from the code root where no layer sets it. */
  function Final(defaults: seq<Field>, i: nat, code: nat, file: map<string, Value>, env: map<string, string>,
                 check: (string, Value) -> Option<Value>): Value
    requires i < |defaults| && code < |defaults|
  {
    var own, root := Layered(defaults[i], file, env, check), Layered(defaults[code], file, env, check);
    if defaults[i].name == SCRIPTS_ROOT && own == Null && root.Text? then Text(root.text + "/scripts") else own
  }

  predicate BadEnv(env: map<string, string>, check: (string, Value) -> Option<Value>, name: string) {
    SetIn(env, name) && check(name, Text(env[name])).None?
  }

  predicate SameNames(values: seq<Field>, defaults: seq<Field>) {
    |values| == |defaults| && forall j :: 0 <= j < |values| ==> values[j].name == defaults[j].name
  }

  /** The file's fields after their checks. */
  function Checked(flat: map<string, Value>, check: (string, Value) -> Option<Value>): map<string, Value> {
    map k | k in flat && check(k, flat[k]).Some? :: check(k, flat[k]).value
  }

  /** The defaults, then the file's fields, then the environment's. */
  method Layer(env: map<string, string>, fromFile: map<string, Value>, defaults: seq<Field>,
               check: (string, Value) -> Option<Value>) returns (r: Resolution<seq<Field>>)
    ensures r.Refused? ==> BadEnv(env, check, r.field) && Known(defaults, r.field)
    ensures r.Resolved? ==>
              && SameNames(r.value, defaults)
              && forall i :: 0 <= i < |defaults| ==> !BadEnv(env, check, defaults[i].name)
                                                     && r.value[i].value == Layered(defaults[i], fromFile, env, check)
    ensures !r.Faulted?
  {
    var values := defaults;
    for i := 0 to |defaults|
      invariant SameNames(values, defaults)
      invariant forall j :: 0 <= j < |defaults| ==>
                  values[j].value == if defaults[j].name in fromFile && j < i then fromFile[defaults[j].name]
                                     else defaults[j].value
    {
      if defaults[i].name in fromFile {
        values := values[i := Field(defaults[i].name, fromFile[defaults[i].name])];
      }
    }
    for i := 0 to |defaults|
      invariant SameNames(values, defaults)
      invariant forall j :: 0 <= j < i ==> !BadEnv(env, check, defaults[j].name)
                                           && values[j].value == Layered(defaults[j], fromFile, env, check)
      invariant forall j :: i <= j < |defaults| ==>
                  values[j].value == if defaults[j].name in fromFile then fromFile[defaults[j].name]
                                     else defaults[j].value
    {
      var name := defaults[i].name;
      if SetIn(env, name) {
        var passed := check(name, Text(env[name]));
        if passed.None? {
          return Refused(name);
        }
        values := values[i := Field(name, passed.value)];
      }
    }
    r := Resolved(values);
  }

  lemma CodeRootIsText(d: Field, flat: map<string, Value>, env: map<string, string>,
                       check: (string, Value) -> Option<Value>)
    requires d.name == CODE_ROOT && d.value.Text?
    requires forall v :: check(CODE_ROOT, v).Some? ==> check(CODE_ROOT, v).value.Text?
    ensures Layered(d, Checked(flat, check), env, check).Text?
  {
  }

  lemma NestedValues(values: seq<Field>, defaults: seq<Field>, i: nat)
    requires SameNames(values, defaults) && DistinctNames(defaults) && PrefixFree(defaults) && i < |defaults|
    ensures Nested(values).Some? && At(Nested(values).value, Split(defaults[i].name)) == Some(values[i].value)
  {
    assert PrefixFree(values) by {
      forall a, b | 0 <= a < |values| && 0 <= b < |values|
        ensures !Under(values[a].name, values[b].name)
      {
        assert !Under(defaults[a].name, defaults[b].name);
      }
    }
    NestedHolds(values, Split(values[i].name));
    GivenToEach(values, i);
  }

  /** What is resolved: every field at its layered value, the scripts root derived where it has none. */
  ghost predicate AllResolved(items: seq<Item>, defaults: seq<Field>, code: nat, file: map<string, Value>,
                              env: map<string, string>, check: (string, Value) -> Option<Value>)
    requires code < |defaults|
  {
    forall i :: 0 <= i < |defaults| ==>
                  At(items, Split(defaults[i].name)) == Some(Final(defaults, i, code, file, env, check))
  }

  /** The field reads what its layers give it; the scripts root, where they give it nothing, reads as the
      directory of that name under the code root. */
  ghost predicate ReadsRight(items: seq<Item>, d: Field, flat: map<string, Value>, env: map<string, string>,
                             check: (string, Value) -> Option<Value>)
  {
    var v := At(items, Split(d.name));
    v.Some?
    && if d.name == "scripts_root" && Wins(Null, d, flat, env, check)
       then exists root: string ::
              At(items, Split("code_root")) == Some(Text(root)) && v.value == Text(root + "/scripts")
       else Wins(v.value, d, flat, env, check)
  }

  lemma AllResolvedReadRight(items: seq<Item>, defaults: seq<Field>, code: nat, flat: map<string, Value>,
                             env: map<string, string>, check: (string, Value) -> Option<Value>)
    requires code < |defaults| && defaults[code].name == CODE_ROOT
    requires forall k :: k in flat ==> !BadField(flat, defaults, check, k)
    requires forall j :: 0 <= j < |defaults| ==> !BadEnv(env, check, defaults[j].name)
    requires AllResolved(items, defaults, code, Checked(flat, check), env, check)
    requires Layered(defaults[code], Checked(flat, check), env, check).Text?
    ensures AllReadRight(items, defaults, flat, env, check)
  {
    forall i | 0 <= i < |defaults|
      ensures ReadsRight(items, defaults[i], flat, env, check)
    {
      ResolvedReadsRight(items, defaults, code, flat, env, check, i);
    }
  }

  lemma LayeredWins(d: Field, flat: map<string, Value>, env: map<string, string>,
                    check: (string, Value) -> Option<Value>, v: Value)
    requires !BadEnv(env, check, d.name) && (d.name in flat ==> check(d.name, flat[d.name]).Some?)
    ensures Wins(v, d, flat, env, check) <==> v == Layered(d, Checked(flat, check), env, check)
  {
  }

  ghost predicate AllReadRight(items: seq<Item>, defaults: seq<Field>, flat: map<string, Value>,
                               env: map<string, string>, check: (string, Value) -> Option<Value>)
  {
    forall i :: 0 <= i < |defaults| ==> ReadsRight(items, defaults[i], flat, env, check)
  }

  lemma ResolvedReadsRight(items: seq<Item>, defaults: seq<Field>, code: nat, flat: map<string, Value>,
                           env: map<string, string>, check: (string, Value) -> Option<Value>, i: nat)
    requires code < |defaults| && defaults[code].name == CODE_ROOT && i < |defaults|
    requires forall k :: k in flat ==> !BadField(flat, defaults, check, k)
    requires forall j :: 0 <= j < |defaults| ==> !BadEnv(env, check, defaults[j].name)
    requires AllResolved(items, defaults, code, Checked(flat, check), env, check)
    requires Layered(defaults[code], Checked(flat, check), env, check).Text?
    ensures ReadsRight(items, defaults[i], flat, env, check)
  {
    var d, own := defaults[i], Layered(defaults[i], Checked(flat, check), env, check);
    LayeredWins(d, flat, env, check, own);
    LayeredWins(d, flat, env, check, Null);
    var root := Layered(defaults[code], Checked(flat, check), env, check);
    assert At(items, Split(defaults[code].name)) == Some(root);
    assert root == Text(root.text);
  }

  /** What a refusal may name: a field of the file that the schema has not or whose check refuses the file's value,
      or a field of the schema whose check refuses its variable, set and not empty. */
  predicate AtFault(name: string, flat: map<string, Value>, defaults: seq<Field>, env: map<string, string>,
                    check: (string, Value) -> Option<Value>)
  {
    var known := exists i :: 0 <= i < |defaults| && defaults[i].name == name;
    || (name in flat && (!known || check(name, flat[name]).None?))
    || (known && name in env && env[name] != "" && check(name, Text(env[name])).None?)
  }

  lemma FaultIs(name: string, flat: map<string, Value>, defaults: seq<Field>, env: map<string, string>,
                check: (string, Value) -> Option<Value>)
    ensures AtFault(name, flat, defaults, env, check)
            <==> BadField(flat, defaults, check, name) || (Known(defaults, name) && BadEnv(env, check, name))
  {
  }

  lemma NoFault(flat: map<string, Value>, defaults: seq<Field>, env: map<string, string>,
                check: (string, Value) -> Option<Value>)
    requires forall k :: k in flat ==> !BadField(flat, defaults, check, k)
    requires forall j :: 0 <= j < |defaults| ==> !BadEnv(env, check, defaults[j].name)
    ensures forall name :: !AtFault(name, flat, defaults, env, check)
  {
    forall name
      ensures !AtFault(name, flat, defaults, env, check)
    {
      FaultIs(name, flat, defaults, env, check);
    }
  }

  /** Resolve every field. `env` gives the variable of each field that has one; `code` and `scripts` are the
      places of the two roots among the defaults. */
  method Resolve(env: map<string, string>, file: Option<seq<Item>>, defaults: seq<Field>, code: nat, scripts: nat,
                 check: (string, Value) -> Option<Value>) returns (r: Resolution<seq<Item>>)
    requires DistinctNames(defaults) && PrefixFree(defaults)
    requires code < |defaults| && defaults[code].name == CODE_ROOT && defaults[code].value.Text?
    requires scripts < |defaults| && defaults[scripts].name == SCRIPTS_ROOT
    requires forall v :: check(CODE_ROOT, v).Some? ==> check(CODE_ROOT, v).value.Text?
    ensures !r.Faulted?
    ensures var flat := if file.None? then map[] else Flat(file.value, "");
            && (r.Refused? ==> AtFault(r.field, flat, defaults, env, check))
            && (r.Resolved? ==>
                  && (forall name :: !AtFault(name, flat, defaults, env, check))
                  && AllResolved(r.value, defaults, code, Checked(flat, check), env, check)
                  && AllReadRight(r.value, defaults, flat, env, check))
  {
    var loaded := Load(file, defaults, check);
    ghost var flat := if file.None? then map[] else Flat(file.value, "");
    if loaded.Refused? {
      FaultIs(loaded.field, flat, defaults, env, check);
      return Refused(loaded.field);
    }
    assert Checked(flat, check) == loaded.value;
    var layered := Layer(env, loaded.value, defaults, check);
    if layered.Refused? {
      FaultIs(layered.field, flat, defaults, env, check);
      return Refused(layered.field);
    }
    var values := layered.value;
    CodeRootIsText(defaults[code], flat, env, check);
    if values[scripts].value == Null {
      values := values[scripts := Field(SCRIPTS_ROOT, Text(values[code].value.text + "/scripts"))];
    }
    var nested := Nest(values);
    NestedValues(values, defaults, code);
    r := Resolved(nested.value);
    forall i | 0 <= i < |defaults|
      ensures At(r.value, Split(defaults[i].name)) == Some(Final(defaults, i, code, loaded.value, env, check))
    {
      NestedValues(values, defaults, i);
      assert defaults[i].name == SCRIPTS_ROOT ==> i == scripts;
    }
    AllResolvedReadRight(r.value, defaults, code, flat, env, check);
    NoFault(flat, defaults, env, check);
  }

  // ---------------------------------------------------------------- the fields of this deployment

  /** Every field and its default, for a home directory and a runtime directory. */
  function Defaults(home: string, runtime: string): seq<Field> {
    [Field("code_root", Text(home + "/src/SNET/omegahive")),
     Field("scripts_root", Null),
     Field("canon_root", Text(home + "/src/SNET")),
     Field("workspace_hub", Text(home + "/repos/hive-workspace.git")),
     Field("operator_workspace", Text(home + "/workspaces/hive")),
     Field("work_root", Text(home + "/work")),
     Field("tmux_session", Text("hive")),
     Field("route_catalog", Text(home + "/.config/omegahive/routes.json")),
     Field("compose", Null),
     Field("env_file", Null),
     Field("ops_socket", Text(runtime + "/omegahive/ops.sock")),
     Field("receipts_dir", Text(home + "/.local/state/omegahive/receipts")),
     Field("operator_actor", Text("operator")),
     Field("authority.web_login", Null),
     Field("authority.slack.team", Null),
     Field("authority.slack.channel", Null),
     Field("authority.slack.user", Null),
     Field("bounds.max_concurrent", Null),
     Field("bounds.wip_review_max", Number(3)),
     Field("bounds.operation_timeout_s", Number(900)),
     Field("bounds.observer_quiet_min", Number(30))]
  }

  predicate Grouped(name: string) { name != "" && (name[0] == 'a' || name[0] == 'b') }

  /** A dotted name starts with a letter that only long names start with, and its dots come early. */
  predicate EarlyDots(name: string) {
    && (Grouped(name) ==> |name| > 16)
    && forall p :: 0 <= p < |name| && name[p] == '.' ==> p < 16 && Grouped(name)
  }

  lemma EarlyDotsApart(a: string, b: string)
    requires EarlyDots(a) && EarlyDots(b) && a != ""
    ensures !Under(a, b)
  {
    if a + DOT <= b {
      DotAfter(a, b);
    }
  }

  lemma DotAfter(a: string, b: string)
    requires a + DOT <= b && a != ""
    ensures |b| > |a| && b[|a|] == '.' && b[0] == a[0]
  {
    assert (a + DOT)[|a|] == '.' && (a + DOT)[0] == a[0];
  }

  lemma DefaultsHaveEarlyDots(home: string, runtime: string, i: nat)
    requires i < |Defaults(home, runtime)|
    ensures EarlyDots(Defaults(home, runtime)[i].name) && Defaults(home, runtime)[i].name != ""
  {
    PlainNames();
    GroupedNames();
  }

  lemma PlainNames()
    ensures EarlyDots("code_root") && EarlyDots("scripts_root") && EarlyDots("canon_root")
    ensures EarlyDots("workspace_hub") && EarlyDots("operator_workspace") && EarlyDots("work_root")
    ensures EarlyDots("tmux_session") && EarlyDots("route_catalog") && EarlyDots("compose")
    ensures EarlyDots("env_file") && EarlyDots("ops_socket") && EarlyDots("receipts_dir")
    ensures EarlyDots("operator_actor")
  {
  }

  lemma GroupedNames()
    ensures EarlyDots("authority.web_login") && EarlyDots("authority.slack.team")
    ensures EarlyDots("authority.slack.channel") && EarlyDots("authority.slack.user")
    ensures EarlyDots("bounds.max_concurrent") && EarlyDots("bounds.wip_review_max")
    ensures EarlyDots("bounds.operation_timeout_s") && EarlyDots("bounds.observer_quiet_min")
  {
  }

  lemma PlainAreDistinct(home: string, runtime: string, i: nat, j: nat)
    requires i < j < 13
    ensures Defaults(home, runtime)[i].name != Defaults(home, runtime)[j].name
  {
  }

  lemma GroupedAreDistinct(home: string, runtime: string, i: nat, j: nat)
    requires 13 <= i < j < 21
    ensures Defaults(home, runtime)[i].name != Defaults(home, runtime)[j].name
  {
  }

  lemma GroupedComeLast(home: string, runtime: string, i: nat)
    requires i < 21
    ensures Grouped(Defaults(home, runtime)[i].name) <==> i >= 13
  {
  }

  lemma DefaultsAreDistinct(home: string, runtime: string)
    ensures DistinctNames(Defaults(home, runtime))
  {
    var fields := Defaults(home, runtime);
    forall i, j | 0 <= i < j < |fields|
      ensures fields[i].name != fields[j].name
    {
      if j < 13 {
        PlainAreDistinct(home, runtime, i, j);
      } else if i >= 13 {
        GroupedAreDistinct(home, runtime, i, j);
      } else {
        GroupedComeLast(home, runtime, i);
        GroupedComeLast(home, runtime, j);
      }
    }
  }

  /** The schema's own fields are prefix-free and distinct, so resolving this deployment never faults. */
  lemma DefaultsArePrefixFree(home: string, runtime: string)
    ensures PrefixFree(Defaults(home, runtime)) && DistinctNames(Defaults(home, runtime))
  {
    var fields := Defaults(home, runtime);
    DefaultsAreDistinct(home, runtime);
    forall i, j | 0 <= i < |fields| && 0 <= j < |fields|
      ensures !Under(fields[i].name, fields[j].name)
    {
      DefaultsHaveEarlyDots(home, runtime, i);
      DefaultsHaveEarlyDots(home, runtime, j);
      EarlyDotsApart(fields[i].name, fields[j].name);
    }
  }
}
