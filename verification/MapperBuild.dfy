/** Which operations each section's table is to list, and in what order. */
module MapperBuild {
  import opened Wrappers
  import opened Text
  import opened ApiMap
  import opened Mapper
  import opened MapperRows
  import opened MapperTables
  import opened MapperTheorems
  import opened MapperText

  /** One operation the application serves. */
  datatype Route = Route(key: Key, file: string, handler: string, line: nat)

  /** What the specification says of it. */
  datatype Operation = Operation(operationId: string, success: string)

  type Spec = map<Key, Operation>

  // ---- the order of a table ----

  function MethodOrder(m: string): nat {
    if m == "get" then 0 else if m == "post" then 1 else if m == "put" then 2 else if m == "patch" then 3 else 4
  }

  /** By path, then by method. */
  predicate KeyLess(a: Key, b: Key) {
    StringLess(a.1, b.1) || (a.1 == b.1 && MethodOrder(a.0) < MethodOrder(b.0))
  }

  lemma KeyLessTransitive(a: Key, b: Key, c: Key)
    requires KeyLess(a, b) && KeyLess(b, c)
    ensures KeyLess(a, c)
  {
    if StringLess(a.1, b.1) && StringLess(b.1, c.1) {
      StringLessTransitive(a.1, b.1, c.1);
    }
  }

  lemma KeyOrder(a: Key, b: Key)
    requires a.0 in METHODS && b.0 in METHODS
    ensures KeyLess(a, b) || a == b || KeyLess(b, a)
  {
    StringOrder(a.1, b.1);
  }

  ghost predicate Ascending(keys: seq<Key>) {
    forall i, j :: 0 <= i < j < |keys| ==> KeyLess(keys[i], keys[j])
  }

  lemma AscendingIsDistinct(keys: seq<Key>)
    requires Ascending(keys)
    ensures Distinct(keys)
  {
    forall i, j | 0 <= i < j < |keys| ensures keys[i] != keys[j] {
      StringIrreflexive(keys[i].1);
    }
  }

  function Insert(key: Key, keys: seq<Key>): (r: seq<Key>)
    ensures |r| == |keys| + 1
    ensures forall k :: k in r <==> k == key || k in keys
  {
    if keys == [] then [key]
    else if KeyLess(key, keys[0]) then [key] + keys
    else [keys[0]] + Insert(key, keys[1..])
  }

  function SortKeys(keys: seq<Key>): (r: seq<Key>)
    ensures |r| == |keys|
    ensures forall k :: k in r <==> k in keys
  {
    if keys == [] then [] else Insert(keys[|keys| - 1], SortKeys(keys[..|keys| - 1]))
  }

  lemma {:induction false} InsertAscends(key: Key, keys: seq<Key>)
    requires Ascending(keys) && key !in keys && key.0 in METHODS
    requires forall i :: 0 <= i < |keys| ==> keys[i].0 in METHODS
    ensures Ascending(Insert(key, keys))
  {
    if keys != [] {
      KeyOrder(key, keys[0]);
      if KeyLess(key, keys[0]) {
        forall j | 0 <= j < |keys| ensures KeyLess(key, keys[j]) {
          if j > 0 {
            KeyLessTransitive(key, keys[0], keys[j]);
          }
        }
      } else {
        InsertAscends(key, keys[1..]);
        HeadFirst(keys[0], Insert(key, keys[1..]), key, keys[1..]);
      }
    }
  }

  lemma HeadFirst(head: Key, tail: seq<Key>, key: Key, keys: seq<Key>)
    requires Ascending(tail) && KeyLess(head, key)
    requires forall k :: k in tail ==> k == key || k in keys
    requires forall i :: 0 <= i < |keys| ==> KeyLess(head, keys[i])
    ensures Ascending([head] + tail)
  {
    forall i | 0 <= i < |tail| ensures KeyLess(head, tail[i]) {
      assert tail[i] in tail;
    }
  }

  lemma {:induction false} SortAscends(keys: seq<Key>)
    requires Distinct(keys) && forall i :: 0 <= i < |keys| ==> keys[i].0 in METHODS
    ensures Ascending(SortKeys(keys))
  {
    if keys != [] {
      var n := |keys| - 1;
      var most := SortKeys(keys[..n]);
      SortAscends(keys[..n]);
      forall i | 0 <= i < |most| ensures most[i].0 in METHODS {
        assert most[i] in keys[..n];
      }
      InsertAscends(keys[n], most);
    }
  }

  // ---- the operations of a section ----

  const PACKAGE := "backend/"

  function FactOf(route: Route, spec: Spec): Fact
    requires route.key in spec
  {
    Fact(route.handler, route.line, spec[route.key].operationId, spec[route.key].success)
  }

  /** The specified operations a file serves, in the order they are registered. */
  function Served(live: seq<Route>, spec: Spec, section: string): seq<Key> {
    if live == [] then []
    else
      var last := live[|live| - 1];
      Served(live[..|live| - 1], spec, section)
      + if last.key in spec && PACKAGE + last.file == section then [last.key] else []
  }

  ghost predicate IsServed(live: seq<Route>, spec: Spec, section: string, key: Key) {
    key in spec && exists i :: 0 <= i < |live| && live[i].key == key && PACKAGE + live[i].file == section
  }

  ghost predicate Registered(live: seq<Route>) {
    && (forall i, j :: 0 <= i < j < |live| ==> live[i].key != live[j].key)
    && forall i :: 0 <= i < |live| ==> Proper(live[i].key)
  }

  lemma {:induction false} ServedExactly(live: seq<Route>, spec: Spec, section: string, key: Key)
    ensures key in Served(live, spec, section) <==> IsServed(live, spec, section, key)
  {
    if live != [] {
      var n := |live| - 1;
      ServedExactly(live[..n], spec, section, key);
      if IsServed(live[..n], spec, section, key) {
        var i :| 0 <= i < n && live[..n][i].key == key && PACKAGE + live[..n][i].file == section;
        assert live[i].key == key;
      }
      if IsServed(live, spec, section, key) {
        var i :| 0 <= i < |live| && live[i].key == key && PACKAGE + live[i].file == section;
        if i < n {
          assert live[..n][i] == live[i];
        }
      }
    }
  }

  lemma {:induction false} ServedOnce(live: seq<Route>, spec: Spec, section: string)
    requires Registered(live)
    ensures Distinct(Served(live, spec, section))
  {
    if live != [] {
      var n := |live| - 1;
      ServedOnce(live[..n], spec, section);
      ServedExactly(live[..n], spec, section, live[n].key);
      assert forall i :: 0 <= i < n ==> live[..n][i] == live[i];
    }
  }

  type Files = map<string, seq<Key>>

  /** One more route, filed under its section and with its facts. */
  function File(files: Files, route: Route): Files {
    var section := PACKAGE + route.file;
    files[section := (if section in files then files[section] else []) + [route.key]]
  }

  function Filed(live: seq<Route>, spec: Spec): Files {
    if live == [] then map[]
    else
      var last := live[|live| - 1];
      var before := Filed(live[..|live| - 1], spec);
      if last.key in spec then File(before, last) else before
  }

  function Facts(live: seq<Route>, spec: Spec): map<Key, Fact> {
    if live == [] then map[]
    else
      var last := live[|live| - 1];
      var before := Facts(live[..|live| - 1], spec);
      if last.key in spec then before[last.key := FactOf(last, spec)] else before
  }

  lemma {:induction false} FiledIsServed(live: seq<Route>, spec: Spec, section: string)
    ensures Served(live, spec, section) == if section in Filed(live, spec) then Filed(live, spec)[section] else []
    ensures section in Filed(live, spec) ==> Served(live, spec, section) != []
  {
    if live != [] {
      FiledIsServed(live[..|live| - 1], spec, section);
    }
  }

  lemma {:induction false} FactsAreOf(live: seq<Route>, spec: Spec, i: nat)
    requires Registered(live) && i < |live| && live[i].key in spec
    ensures live[i].key in Facts(live, spec) && Facts(live, spec)[live[i].key] == FactOf(live[i], spec)
  {
    var n := |live| - 1;
    if i < n {
      assert forall j :: 0 <= j < n ==> live[..n][j] == live[j];
      FactsAreOf(live[..n], spec, i);
    }
  }

  lemma {:induction false} ServedHaveFacts(live: seq<Route>, spec: Spec, section: string, key: Key)
    requires key in Served(live, spec, section)
    ensures key in Facts(live, spec)
  {
    var n := |live| - 1;
    if key in Served(live[..n], spec, section) {
      ServedHaveFacts(live[..n], spec, section, key);
    }
  }

  lemma TablesHaveFacts(live: seq<Route>, spec: Spec, w: World)
    requires w.facts == Facts(live, spec)
    requires w.tables == map s | s in Filed(live, spec) :: SortKeys(Filed(live, spec)[s])
    ensures w.Closed()
  {
    forall s, i | s in w.tables && 0 <= i < |w.tables[s]| ensures w.tables[s][i] in w.facts {
      FiledIsServed(live, spec, s);
      assert w.tables[s][i] in SortKeys(Filed(live, spec)[s]);
      ServedHaveFacts(live, spec, s, w.tables[s][i]);
    }
  }

  function BuiltWorld(live: seq<Route>, spec: Spec, headings: seq<Heading>): (w: World)
    ensures w.Closed()
  {
    var files := Filed(live, spec);
    var w := World(map s | s in files :: SortKeys(files[s]), Facts(live, spec), headings);
    TablesHaveFacts(live, spec, w);
    w
  }

  /** `build`: file every specified route, then sort each section. */
  method Build(live: seq<Route>, spec: Spec, headings: seq<Heading>) returns (w: World)
    ensures w == BuiltWorld(live, spec, headings)
  {
    var byFile: Files := map[];
    var derived: map<Key, Fact> := map[];
    var i := 0;
    while i < |live|
      invariant i <= |live|
      invariant byFile == Filed(live[..i], spec) && derived == Facts(live[..i], spec)
    {
      var route := live[i];
      assert live[..i + 1][..i] == live[..i];
      if route.key in spec {
        byFile := File(byFile, route);
        derived := derived[route.key := FactOf(route, spec)];
      }
      i := i + 1;
    }
    assert live[..i] == live;
    w := World(map s | s in byFile :: SortKeys(byFile[s]), derived, headings);
  }

  lemma KeysAreSorted(live: seq<Route>, spec: Spec, headings: seq<Heading>, section: string)
    ensures KeysOf(section, BuiltWorld(live, spec, headings)) == SortKeys(Served(live, spec, section))
  {
    FiledIsServed(live, spec, section);
  }

  /** Each table is due exactly the specified operations its file serves, once each, by path and then method. */
  lemma TablesAreComplete(live: seq<Route>, spec: Spec, headings: seq<Heading>, section: string)
    requires Registered(live)
    ensures var keys := KeysOf(section, BuiltWorld(live, spec, headings));
            && Ascending(keys) && Distinct(keys)
            && forall key :: key in keys <==> IsServed(live, spec, section, key)
  {
    KeysAreSorted(live, spec, headings, section);
    var served := Served(live, spec, section);
    forall key ensures key in served <==> IsServed(live, spec, section, key) {
      ServedExactly(live, spec, section, key);
    }
    ServedOnce(live, spec, section);
    forall i | 0 <= i < |served| ensures served[i].0 in METHODS {
      assert served[i] in served;
    }
    SortAscends(served);
    AscendingIsDistinct(SortKeys(served));
  }

  /** Routes and specification free of bars and line breaks where the framework already forbids them. */
  ghost predicate PlainSpec(live: seq<Route>, spec: Spec) {
    forall i :: 0 <= i < |live| && live[i].key in spec ==>
      && '|' !in live[i].handler && Unbroken(live[i].handler)
      && '|' !in spec[live[i].key].operationId && Unbroken(spec[live[i].key].operationId)
      && '|' !in spec[live[i].key].success && Unbroken(spec[live[i].key].success)
  }

  lemma KeysAreClean(live: seq<Route>, spec: Spec, headings: seq<Heading>, section: string, k: nat)
    requires Registered(live) && PlainSpec(live, spec)
    requires k < |KeysOf(section, BuiltWorld(live, spec, headings))|
    ensures var w := BuiltWorld(live, spec, headings);
            var key := KeysOf(section, w)[k];
            Proper(key) && key in w.facts && Plain(w.facts[key])
  {
    var w := BuiltWorld(live, spec, headings);
    var key := KeysOf(section, w)[k];
    TablesAreComplete(live, spec, headings, section);
    assert key in KeysOf(section, w);
    var i :| 0 <= i < |live| && live[i].key == key && PACKAGE + live[i].file == section;
    FactsAreOf(live, spec, i);
  }

  /** What `build` builds is fit to be written and read back. */
  lemma BuiltIsClean(live: seq<Route>, spec: Spec, headings: seq<Heading>)
    requires Registered(live) && PlainSpec(live, spec)
    ensures CleanWorld(BuiltWorld(live, spec, headings))
  {
    var w := BuiltWorld(live, spec, headings);
    forall s | s in w.tables ensures CleanKeys(w.tables[s], w) {
      TablesAreComplete(live, spec, headings, s);
      forall k | 0 <= k < |w.tables[s]|
        ensures Proper(w.tables[s][k]) && w.tables[s][k] in w.facts && Plain(w.facts[w.tables[s][k]])
      {
        KeysAreClean(live, spec, headings, s, k);
      }
    }
  }
}
