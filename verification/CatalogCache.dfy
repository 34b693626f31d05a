/** The metadata caches of OracleCatalogState (src/storage/oracle_catalog.cpp:93-103, 149-162,
    229-342) against the answers a direct query would give. */
module CatalogCache {

  /** The remote dictionary, as far as the cached queries look at it.  `schema` is the current
      schema, empty when the server reports none. */
  datatype Remote = Remote(
    schema: string,
    users: seq<string>,
    tables: string -> seq<string>,
    objects: (string, string) -> seq<string>)

  datatype Settings = Settings(lazySchemaLoading: bool, useCurrentSchema: bool, resultLimit: nat)

  datatype Cache = Cache(
    schemas: seq<string>,
    tables: map<string, seq<string>>,
    objects: map<string, seq<string>>,
    current: string)

  const EMPTY: Cache := Cache([], map[], map[], "")

  // ---------------------------------------------------------------- uncached answers

  function DirectSchemas(r: Remote, s: Settings): seq<string> {
    if s.lazySchemaLoading && r.schema != "" then (if s.useCurrentSchema then ["main"] else []) + [r.schema]
    else r.users
  }

  function DirectTables(r: Remote, schema: string): seq<string> {
    if schema == "" then [] else r.tables(schema)
  }

  /** ROWNUM <= limit over an ordered listing; zero means no limit. */
  function Limited(names: seq<string>, limit: nat): (out: seq<string>)
    ensures out <= names
    ensures limit == 0 || |names| <= limit ==> out == names
    ensures 0 < limit <= |names| ==> |out| == limit
  {
    if limit > 0 && |names| > limit then names[..limit] else names
  }

  function DirectObjects(r: Remote, s: Settings, schema: string, types: string): seq<string> {
    Limited(r.objects(schema, types), s.resultLimit)
  }

  function Key(schema: string, types: string): string {
    schema + ":" + types
  }

  // ---------------------------------------------------------------- cached operations

  /** An operation; the flags say whether connecting, which comes before any use of the server or
      of a schema name, and the queries the operation may issue succeed.  DetectCurrentSchema is
      followed by reading the schema it detected. */
  datatype Op =
    | ListSchemas(connects: bool, currentOk: bool, usersOk: bool)
    | ListTables(schema: string, connects: bool, ok: bool)
    | ListObjects(schema: string, types: string, connects: bool, ok: bool)
    | DetectCurrentSchema(connects: bool, ok: bool)
    | ClearCaches

  datatype Answer = Names(names: seq<string>) | Failed | Done

  function StepSchemas(r: Remote, s: Settings, c: Cache, connects: bool, currentOk: bool, usersOk: bool): (Cache, Answer) {
    if c.schemas != [] then (c, Names(c.schemas))
    else if !connects then (c, Failed)
    else if s.lazySchemaLoading && c.current == "" && !currentOk then (c, Failed)
    else
      var c1 := if s.lazySchemaLoading && c.current == "" then c.(current := r.schema) else c;
      if s.lazySchemaLoading && c1.current != "" then
        var names := (if s.useCurrentSchema then ["main"] else []) + [c1.current];
        (c1.(schemas := names), Names(names))
      else if !usersOk then (c1, Failed)
      else (c1.(schemas := r.users), Names(r.users))
  }

  function Step(r: Remote, s: Settings, c: Cache, op: Op): (Cache, Answer) {
    match op
    case ListSchemas(connects, currentOk, usersOk) => StepSchemas(r, s, c, connects, currentOk, usersOk)
    case ListTables(schema, connects, ok) =>
      if schema in c.tables then (c, Names(c.tables[schema]))
      else if !connects then (c, Failed)
      else if schema == "" then (c, Names([]))
      else if !ok then (c, Failed)
      else (c.(tables := c.tables[schema := r.tables(schema)]), Names(r.tables(schema)))
    case ListObjects(schema, types, connects, ok) =>
      var key := Key(schema, types);
      if key in c.objects then (c, Names(c.objects[key]))
      else if !connects || !ok then (c, Failed)
      else
        var found := DirectObjects(r, s, schema, types);
        (c.(objects := c.objects[key := found]), Names(found))
    case DetectCurrentSchema(connects, ok) =>
      if c.current != "" then (c, Names([c.current]))
      else if !connects || !ok then (c, Failed)
      else (c.(current := r.schema), Names([r.schema]))
    case ClearCaches => (EMPTY, Done)
  }

  function Direct(r: Remote, s: Settings, op: Op): Answer {
    match op
    case ListSchemas(_, _, _) => Names(DirectSchemas(r, s))
    case ListTables(schema, _, _) => Names(DirectTables(r, schema))
    case ListObjects(schema, types, _, _) => Names(DirectObjects(r, s, schema, types))
    case DetectCurrentSchema(_, _) => Names([r.schema])
    case ClearCaches => Done
  }

  /** The dictionaries a server goes through: `d(e)` is in force after the e-th clear. */
  type History = nat -> Remote

  function NextEpoch(e: nat, op: Op): nat {
    if op.ClearCaches? then e + 1 else e
  }

  /** Connecting and all the queries of an operation work. */
  predicate Fine(op: Op) {
    match op
    case ListSchemas(connects, currentOk, usersOk) => connects && currentOk && usersOk
    case ListTables(_, connects, ok) => connects && ok
    case ListObjects(_, _, connects, ok) => connects && ok
    case DetectCurrentSchema(connects, ok) => connects && ok
    case ClearCaches => true
  }

  /** The cache has an answer for the operation. */
  predicate Held(c: Cache, op: Op) {
    match op
    case ListSchemas(_, _, _) => c.schemas != []
    case ListTables(schema, _, _) => schema in c.tables
    case ListObjects(schema, types, _, _) => Key(schema, types) in c.objects
    case DetectCurrentSchema(_, _) => c.current != ""
    case ClearCaches => false
  }

  /** Every answer of the run is the direct one on the dictionary then in force; an operation may
      fail only if its connection or one of its queries does, and then has nothing cached for it.
      The dictionary may change at each clear. */
  ghost predicate Agrees(d: History, e: nat, s: Settings, c: Cache, ops: seq<Op>)
    decreases |ops|
  {
    ops == [] ||
    (var (c', a) := Step(d(e), s, c, ops[0]);
     && (a == Direct(d(e), s, ops[0]) || (a == Failed && !Fine(ops[0])))
     && (a == Failed ==> !Held(c', ops[0]))
     && Agrees(d, NextEpoch(e, ops[0]), s, c', ops[1..]))
  }

  // ---------------------------------------------------------------- who filled which key

  type Owners = map<string, (string, string)>

  function NextOwners(o: Owners, op: Op): Owners {
    match op
    case ListObjects(schema, types, connects, ok) =>
      if connects && ok && Key(schema, types) !in o then o[Key(schema, types) := (schema, types)] else o
    case ClearCaches => map[]
    case _ => o
  }

  /** No listing finds its key taken by another schema and type list. */
  predicate NoClash(o: Owners, ops: seq<Op>)
    decreases |ops|
  {
    ops == [] ||
    (&& (ops[0].ListObjects? ==>
         var key := Key(ops[0].schema, ops[0].types);
         key in o ==> o[key] == (ops[0].schema, ops[0].types))
     && NoClash(NextOwners(o, ops[0]), ops[1..]))
  }

  /** What the cache holds is right, where an object listing is right for the owner of its key. */
  ghost predicate Truthful(r: Remote, s: Settings, c: Cache, o: Owners) {
    && (c.schemas != [] ==> c.schemas == DirectSchemas(r, s))
    && (c.current != "" ==> c.current == r.schema)
    && (forall k :: k in c.tables ==> c.tables[k] == DirectTables(r, k))
    && c.objects.Keys == o.Keys
    && (forall k :: k in c.objects ==> c.objects[k] == DirectObjects(r, s, o[k].0, o[k].1))
  }

  /** An operation keeps the cache truthful; a clear makes it truthful for any next dictionary. */
  lemma StepTruthful(r: Remote, next: Remote, s: Settings, c: Cache, o: Owners, op: Op)
    requires Truthful(r, s, c, o)
    requires !op.ClearCaches? ==> next == r
    ensures Truthful(next, s, Step(r, s, c, op).0, NextOwners(o, op))
    ensures var a := Step(r, s, c, op).1;
            && (!op.ListObjects? || Key(op.schema, op.types) !in o || o[Key(op.schema, op.types)] == (op.schema, op.types)
                ==> a == Direct(r, s, op) || (a == Failed && !Fine(op)))
            && (a == Failed ==> !Held(Step(r, s, c, op).0, op))
  {
  }

  lemma {:induction false} NoClashAgrees(d: History, e: nat, s: Settings, c: Cache, o: Owners, ops: seq<Op>)
    requires Truthful(d(e), s, c, o) && NoClash(o, ops)
    ensures Agrees(d, e, s, c, ops)
    decreases |ops|
  {
    if ops != [] {
      var e' := NextEpoch(e, ops[0]);
      StepTruthful(d(e), d(e'), s, c, o, ops[0]);
      NoClashAgrees(d, e', s, Step(d(e), s, c, ops[0]).0, NextOwners(o, ops[0]), ops[1..]);
    }
  }

  /** A dictionary in which exactly one pair of schema and type list has an object. */
  function OnlyObject(schema: string, types: string): Remote {
    Remote("", [], (_: string) => [],
           (a: string, b: string) => if a == schema && b == types then ["X"] else [])
  }

  /** ... and that never changes. */
  function Always(r: Remote): History {
    (_: nat) => r
  }

  /** The first clash of a run, and the dictionary that shows it. */
  lemma {:induction false} ClashShows(e: nat, s: Settings, o: Owners, ops: seq<Op>) returns (schema: string, types: string)
    requires !NoClash(o, ops)
    ensures forall c :: Truthful(OnlyObject(schema, types), s, c, o)
                        ==> !Agrees(Always(OnlyObject(schema, types)), e, s, c, ops)
    decreases |ops|
  {
    var op := ops[0];
    if op.ListObjects? && Key(op.schema, op.types) in o && o[Key(op.schema, op.types)] != (op.schema, op.types) {
      schema, types := op.schema, op.types;
    } else {
      schema, types := ClashShows(NextEpoch(e, op), s, NextOwners(o, op), ops[1..]);
      var r := OnlyObject(schema, types);
      forall c | Truthful(r, s, c, o) ensures !Agrees(Always(r), e, s, c, ops) {
        StepTruthful(r, r, s, c, o, op);
      }
    }
  }

  // ---------------------------------------------------------------- main results

  ghost predicate AgreesWith(d: History, s: Settings, ops: seq<Op>) {
    Agrees(d, 0, s, EMPTY, ops)
  }

  /** The caches are unobservable, whatever the remote dictionary holds, however it changes at each
      clear, and whichever connections and queries fail, if and only if no two listings between
      two clears collide in `schema + ":" + types`. */
  lemma CachesAgreeIff(s: Settings, ops: seq<Op>)
    ensures (forall d: History :: AgreesWith(d, s, ops)) <==> NoClash(map[], ops)
  {
    if NoClash(map[], ops) {
      forall d: History ensures AgreesWith(d, s, ops) {
        NoClashAgrees(d, 0, s, EMPTY, map[], ops);
      }
    } else {
      var schema, types := ClashShows(0, s, map[], ops);
      assert Truthful(OnlyObject(schema, types), s, EMPTY, map[]);
      assert !AgreesWith(Always(OnlyObject(schema, types)), s, ops);
    }
  }

  /** Two pairs can share a key only if the longer schema name and the other's type list both
      contain a colon. */
  lemma SharedKey(s1: string, t1: string, s2: string, t2: string)
    requires Key(s1, t1) == Key(s2, t2) && |s1| < |s2|
    ensures ':' in s2 && ':' in t1
  {
    var k := Key(s1, t1);
    assert s2[|s1|] == k[|s1|] == ':';
    assert t1[|s2| - |s1| - 1] == k[|s2|] == Key(s2, t2)[|s2|] == ':';
  }

  /** The key determines schema and types when schema names, or type lists, contain no colon. */
  lemma KeyInjective(s1: string, t1: string, s2: string, t2: string)
    requires Key(s1, t1) == Key(s2, t2)
    requires (':' !in s1 && ':' !in s2) || (':' !in t1 && ':' !in t2)
    ensures s1 == s2 && t1 == t2
  {
    if |s1| < |s2| {
      SharedKey(s1, t1, s2, t2);
    } else if |s2| < |s1| {
      SharedKey(s2, t2, s1, t1);
    } else {
      var k := Key(s1, t1);
      assert s1 == k[..|s1|] && s2 == k[..|s2|];
      assert t1 == k[|s1| + 1..] && t2 == k[|s2| + 1..];
    }
  }

  predicate ColonFree(ops: seq<Op>) {
    forall i :: 0 <= i < |ops| && ops[i].ListObjects? ==> ':' !in ops[i].schema
  }

  lemma {:induction false} ColonFreeNoClash(o: Owners, ops: seq<Op>)
    requires ColonFree(ops)
    requires forall k :: k in o ==> k == Key(o[k].0, o[k].1) && ':' !in o[k].0
    ensures NoClash(o, ops)
    decreases |ops|
  {
    if ops != [] {
      assert ColonFree(ops[1..]) by {
        forall i | 0 <= i < |ops[1..]| && ops[1..][i].ListObjects? ensures ':' !in ops[1..][i].schema {
          assert ops[1..][i] == ops[i + 1];
        }
      }
      var op := ops[0];
      if op.ListObjects? && Key(op.schema, op.types) in o {
        var w := o[Key(op.schema, op.types)];
        KeyInjective(w.0, w.1, op.schema, op.types);
      }
      ColonFreeNoClash(NextOwners(o, op), ops[1..]);
    }
  }

  /** In particular the caches agree over every run whose schema names contain no colon. */
  lemma CachesAgree(d: History, s: Settings, ops: seq<Op>)
    requires ColonFree(ops)
    ensures AgreesWith(d, s, ops)
  {
    ColonFreeNoClash(map[], ops);
    NoClashAgrees(d, 0, s, EMPTY, map[], ops);
  }

  /** With colons in both places it fails: the second listing gets the first one's answer. */
  lemma ColonsCanClash(s: Settings)
    ensures !AgreesWith(Always(OnlyObject("A:B", "C")), s,
                        [ListObjects("A", "B:C", true, true), ListObjects("A:B", "C", true, true)])
  {
    var r := OnlyObject("A:B", "C");
    var ops := [ListObjects("A", "B:C", true, true), ListObjects("A:B", "C", true, true)];
    assert Key("A", "B:C") == "A:B:C" && Key("A:B", "C") == "A:B:C";
    assert ops[1..] == [ListObjects("A:B", "C", true, true)];
    var c1 := Step(r, s, EMPTY, ops[0]).0;
    assert c1.objects == map["A:B:C" := []];
    assert Step(r, s, c1, ops[1]).1 == Names([]);
    assert Direct(r, s, ops[1]) == Names(["X"]);
  }

  // ---------------------------------------------------------------- what can fail

  datatype RemoteQuery = CurrentSchemaQuery | UsersQuery | TablesQuery | ObjectsQuery

  /** The queries an operation has to issue when the cache has no answer for it and it is connected.
      All users are listed only if the current schema is not wanted or the server reports none. */
  function Issues(r: Remote, s: Settings, c: Cache, op: Op): set<RemoteQuery> {
    match op
    case ListSchemas(_, _, _) =>
      if !s.lazySchemaLoading then {UsersQuery}
      else if c.current != "" then {}
      else if r.schema != "" then {CurrentSchemaQuery}
      else {CurrentSchemaQuery, UsersQuery}
    case ListTables(schema, _, _) => if schema == "" then {} else {TablesQuery}
    case ListObjects(_, _, _, _) => {ObjectsQuery}
    case DetectCurrentSchema(_, _) => {CurrentSchemaQuery}
    case ClearCaches => {}
  }

  predicate Connects(op: Op) {
    op.ClearCaches? || op.connects
  }

  predicate Works(op: Op, q: RemoteQuery) {
    match op
    case ListSchemas(_, currentOk, usersOk) => if q == UsersQuery then usersOk else currentOk
    case ListTables(_, _, ok) => ok
    case ListObjects(_, _, _, ok) => ok
    case DetectCurrentSchema(_, ok) => ok
    case ClearCaches => true
  }

  /** An operation fails exactly if the cache has no answer and connecting, or a query it has to
      issue, fails.  A failed operation caches nothing but the current schema it may have found. */
  lemma FailsIff(r: Remote, s: Settings, c: Cache, op: Op)
    ensures var (c', a) := Step(r, s, c, op);
            && (a == Failed <==>
                  !op.ClearCaches? && !Held(c, op) && (!Connects(op) || exists q :: q in Issues(r, s, c, op) && !Works(op, q)))
            && (a == Failed ==> c'.(current := c.current) == c && (c'.current == c.current || c'.current == r.schema))
  {
    var qs := Issues(r, s, c, op);
    assert (exists q :: q in qs && !Works(op, q)) <==>
           || (CurrentSchemaQuery in qs && !Works(op, CurrentSchemaQuery))
           || (UsersQuery in qs && !Works(op, UsersQuery))
           || (TablesQuery in qs && !Works(op, TablesQuery))
           || (ObjectsQuery in qs && !Works(op, ObjectsQuery));
  }

  /** What one operation may change: the entry it answers from, and the current schema.  An empty
      schema name never gets an entry. */
  lemma ChangesItsOwn(r: Remote, s: Settings, c: Cache, op: Op)
    requires !op.ClearCaches?
    ensures var c' := Step(r, s, c, op).0;
            && (!op.ListSchemas? ==> c'.schemas == c.schemas)
            && (!op.ListSchemas? && !op.DetectCurrentSchema? ==> c'.current == c.current)
            && (forall k :: !(op.ListTables? && k == op.schema != "") ==>
                  (k in c'.tables <==> k in c.tables) && (k in c.tables ==> c'.tables[k] == c.tables[k]))
            && (forall k :: !(op.ListObjects? && k == Key(op.schema, op.types)) ==>
                  (k in c'.objects <==> k in c.objects) && (k in c.objects ==> c'.objects[k] == c.objects[k]))
  {
  }

  // ---------------------------------------------------------------- and they do cache

  /** The cache after some operations, each on the dictionary it finds. */
  function RunCache(rs: seq<Remote>, s: Settings, c: Cache, ops: seq<Op>): Cache
    requires |rs| == |ops|
    decreases |ops|
  {
    if ops == [] then c else RunCache(rs[1..], s, Step(rs[0], s, c, ops[0]).0, ops[1..])
  }

  /** The same operation with no server to connect to. */
  function Offline(op: Op): Op {
    match op
    case ListSchemas(_, _, _) => ListSchemas(false, false, false)
    case ListTables(schema, _, _) => ListTables(schema, false, false)
    case ListObjects(schema, types, _, _) => ListObjects(schema, types, false, false)
    case DetectCurrentSchema(_, _) => DetectCurrentSchema(false, false)
    case ClearCaches => ClearCaches
  }

  predicate NoClear(ops: seq<Op>) {
    forall i :: 0 <= i < |ops| ==> !ops[i].ClearCaches?
  }

  /** What is cached stays cached. */
  lemma {:induction false} CacheGrows(rs: seq<Remote>, s: Settings, c: Cache, ops: seq<Op>)
    requires NoClear(ops) && |rs| == |ops|
    ensures var c' := RunCache(rs, s, c, ops);
            && (c.schemas != [] ==> c'.schemas == c.schemas)
            && (forall k :: k in c.tables ==> k in c'.tables && c'.tables[k] == c.tables[k])
            && (forall k :: k in c.objects ==> k in c'.objects && c'.objects[k] == c.objects[k])
    decreases |ops|
  {
    if ops != [] {
      assert NoClear(ops[1..]) by {
        assert forall i :: 0 <= i < |ops| - 1 ==> ops[1..][i] == ops[i + 1];
      }
      CacheGrows(rs[1..], s, Step(rs[0], s, c, ops[0]).0, ops[1..]);
    }
  }

  /** The cache holds the answer to a listing. */
  predicate HasAnswer(c: Cache, op: Op, names: seq<string>) {
    match op
    case ListSchemas(_, _, _) => c.schemas == names && names != []
    case ListTables(schema, _, _) => schema in c.tables && c.tables[schema] == names
    case ListObjects(schema, types, _, _) => Key(schema, types) in c.objects && c.objects[Key(schema, types)] == names
    case _ => false
  }

  lemma AnswerIsHeld(r: Remote, s: Settings, c: Cache, op: Op)
    requires op.ListSchemas? || op.ListTables? || op.ListObjects?
    requires op.ListTables? ==> op.schema != ""
    requires Step(r, s, c, op).1.Names? && (op.ListSchemas? ==> Step(r, s, c, op).1 != Names([]))
    ensures HasAnswer(Step(r, s, c, op).0, op, Step(r, s, c, op).1.names)
  {
  }

  /** Once a listing has been answered, the same listing needs no server until the caches are
      cleared, whatever is done in between and however the dictionary changes from one operation to
      the next. */
  lemma AnsweredOnce(r: Remote, rs: seq<Remote>, r': Remote, s: Settings, c: Cache, op: Op, between: seq<Op>)
    requires op.ListSchemas? || op.ListTables? || op.ListObjects?
    requires op.ListTables? ==> op.schema != ""
    requires Step(r, s, c, op).1.Names? && (op.ListSchemas? ==> Step(r, s, c, op).1 != Names([]))
    requires NoClear(between) && |rs| == |between|
    ensures var c' := RunCache(rs, s, Step(r, s, c, op).0, between);
            Step(r', s, c', Offline(op)).1 == Step(r, s, c, op).1
  {
    AnswerIsHeld(r, s, c, op);
    AnswerStays(rs, r', s, Step(r, s, c, op).0, op, Step(r, s, c, op).1.names, between);
  }

  lemma AnswerStays(rs: seq<Remote>, r': Remote, s: Settings, c: Cache, op: Op, names: seq<string>, between: seq<Op>)
    requires HasAnswer(c, op, names) && NoClear(between) && |rs| == |between|
    ensures Step(r', s, RunCache(rs, s, c, between), Offline(op)).1 == Names(names)
  {
    CacheGrows(rs, s, c, between);
    var c' := RunCache(rs, s, c, between);
    assert HasAnswer(c', op, names);
  }

  // ---------------------------------------------------------------- the object

  class OracleCatalogState {
    const settings: Settings
    var schema_cache: seq<string>
    var table_cache: map<string, seq<string>>
    var object_cache: map<string, seq<string>>
    var current_schema: string

    ghost function View(): Cache
      reads this
    {
      Cache(schema_cache, table_cache, object_cache, current_schema)
    }

    constructor (s: Settings)
      ensures settings == s && View() == EMPTY
    {
      settings := s;
      schema_cache, table_cache, object_cache, current_schema := [], map[], map[], "";
    }

    method Clear(ghost r: Remote)
      modifies this
      ensures (View(), Done) == Step(r, settings, old(View()), ClearCaches)
    {
      schema_cache, table_cache, object_cache, current_schema := [], map[], map[], "";
    }

    /** DetectCurrentSchema, then GetCurrentSchema: a connection that fails throws, a query that
        fails is swallowed, and in both cases nothing is detected. */
    method Detect(r: Remote, connects: bool, ok: bool) returns (a: Answer)
      modifies this
      ensures (View(), a) == Step(r, settings, old(View()), DetectCurrentSchema(connects, ok))
    {
      if current_schema != "" {
        return Names([current_schema]);
      }
      if !connects || !ok {
        return Failed;
      }
      current_schema := r.schema;
      a := Names([current_schema]);
    }

    method Schemas(r: Remote, connects: bool, currentOk: bool, usersOk: bool) returns (a: Answer)
      modifies this
      ensures (View(), a) == Step(r, settings, old(View()), ListSchemas(connects, currentOk, usersOk))
    {
      if schema_cache != [] {
        return Names(schema_cache);
      }
      if !connects {
        return Failed;
      }
      if settings.lazySchemaLoading {
        if current_schema == "" {
          if !currentOk {
            return Failed;
          }
          current_schema := r.schema;
        }
        if current_schema != "" {
          if settings.useCurrentSchema {
            schema_cache := schema_cache + ["main"];
          }
          schema_cache := schema_cache + [current_schema];
          assert schema_cache == (if settings.useCurrentSchema then ["main"] else []) + [current_schema];
          return Names(schema_cache);
        }
      }
      if !usersOk {
        return Failed;
      }
      for i := 0 to |r.users|
        invariant schema_cache == r.users[..i]
        invariant View() == old(View()).(schemas := schema_cache, current := current_schema)
        invariant current_schema == if settings.lazySchemaLoading then r.schema else old(current_schema)
      {
        schema_cache := schema_cache + [r.users[i]];
      }
      assert r.users[..|r.users|] == r.users;
      a := Names(schema_cache);
    }

    method Tables(r: Remote, schema: string, connects: bool, ok: bool) returns (a: Answer)
      modifies this
      ensures (View(), a) == Step(r, settings, old(View()), ListTables(schema, connects, ok))
    {
      if schema in table_cache {
        return Names(table_cache[schema]);
      }
      if !connects {
        return Failed;
      }
      if schema == "" {
        return Names([]);
      }
      if !ok {
        return Failed;
      }
      var tables := r.tables(schema);
      table_cache := table_cache[schema := tables];
      a := Names(tables);
    }

    method Objects(r: Remote, schema: string, types: string, connects: bool, ok: bool) returns (a: Answer)
      modifies this
      ensures (View(), a) == Step(r, settings, old(View()), ListObjects(schema, types, connects, ok))
    {
      var cache_key := schema + ":" + types;
      if cache_key in object_cache {
        return Names(object_cache[cache_key]);
      }
      if !connects || !ok {
        return Failed;
      }
      var objects := r.objects(schema, types);
      if settings.resultLimit > 0 && |objects| > settings.resultLimit {
        objects := objects[..settings.resultLimit];
      }
      object_cache := object_cache[cache_key := objects];
      a := Names(objects);
    }
  }
}
