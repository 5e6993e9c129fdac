/** The collections and indexes the service needs (`ensureDBSchema` and
    `ensureCollection` in database/database.go), and how provisioning them
    changes a database's catalog.
 */
module Schema {

  import opened Outcomes

  /** An index: its key fields with their directions, a name, and whether
      it rejects duplicate keys. */
  datatype IndexModel = IndexModel(keys: seq<(string, int)>, name: string, unique: bool)

  const UsersCollection: string := "users"
  const SkylinksCollection: string := "skylinks"
  const UploadsCollection: string := "uploads"
  const DownloadsCollection: string := "downloads"
  const RegistryReadsCollection: string := "registry_reads"
  const RegistryWritesCollection: string := "registry_writes"

  function Ascending(field: string, name: string, unique: bool): IndexModel
  {
    IndexModel([(field, 1)], name, unique)
  }

  /** The indexes each collection must have. */
  const SchemaTable: map<string, seq<IndexModel>> := map[
    UsersCollection := [Ascending("sub", "sub_unique", true)],
    SkylinksCollection := [Ascending("skylink", "skylink_unique", true)],
    UploadsCollection := [Ascending("user_id", "user_id", false), Ascending("skylink_id", "skylink_id", false)],
    DownloadsCollection := [Ascending("user_id", "user_id", false), Ascending("skylink_id", "skylink_id", false)],
    RegistryReadsCollection := [Ascending("user_id", "user_id", false)],
    RegistryWritesCollection := [Ascending("user_id", "user_id", false)]
  ]

  /** The unique indexes of a schema, as (collection, index name) pairs. */
  function UniqueIndexes(schema: map<string, seq<IndexModel>>): (r: set<(string, string)>)
    ensures forall c, n :: (c, n) in r <==>
              c in schema && exists i :: 0 <= i < |schema[c]| && schema[c][i].unique && schema[c][i].name == n
  {
    set c, i | c in schema && 0 <= i < |schema[c]| && schema[c][i].unique :: (c, schema[c][i].name)
  }

  /** The fields a collection's indexes cover. */
  function IndexedFields(indexes: seq<IndexModel>): (r: set<string>)
    ensures forall f :: f in r <==> exists i :: 0 <= i < |indexes| && (f, 1) in indexes[i].keys
  {
    set i, k | 0 <= i < |indexes| && k in indexes[i].keys && k.1 == 1 :: k.0
  }

  /** Exactly two indexes are unique: `sub_unique` on the users' `sub` and
      `skylink_unique` on the skylinks' `skylink`. */
  lemma SchemaUniqueIndexes()
    ensures UniqueIndexes(SchemaTable) == {(UsersCollection, "sub_unique"), (SkylinksCollection, "skylink_unique")}
    ensures SchemaTable[UsersCollection][0] == IndexModel([("sub", 1)], "sub_unique", true)
    ensures SchemaTable[SkylinksCollection][0] == IndexModel([("skylink", 1)], "skylink_unique", true)
  {
    var expected := {(UsersCollection, "sub_unique"), (SkylinksCollection, "skylink_unique")};
    forall c, n ensures (c, n) in UniqueIndexes(SchemaTable) <==> (c, n) in expected {
      if (c, n) in UniqueIndexes(SchemaTable) {
        var i :| 0 <= i < |SchemaTable[c]| && SchemaTable[c][i].unique && SchemaTable[c][i].name == n;
      }
      if (c, n) in expected {
        assert SchemaTable[c][0].unique && SchemaTable[c][0].name == n;
      }
    }
  }

  /** Six collections; uploads and downloads are indexed on `user_id` and
      `skylink_id`, the registry collections on `user_id` only. */
  lemma SchemaIndexedFields()
    ensures SchemaTable.Keys == {UsersCollection, SkylinksCollection, UploadsCollection, DownloadsCollection,
                                 RegistryReadsCollection, RegistryWritesCollection}
    ensures IndexedFields(SchemaTable[UploadsCollection]) == {"user_id", "skylink_id"}
    ensures IndexedFields(SchemaTable[DownloadsCollection]) == {"user_id", "skylink_id"}
    ensures IndexedFields(SchemaTable[RegistryReadsCollection]) == {"user_id"}
    ensures IndexedFields(SchemaTable[RegistryWritesCollection]) == {"user_id"}
  {
    TwoFields(SchemaTable[UploadsCollection]);
    TwoFields(SchemaTable[DownloadsCollection]);
    OneField(SchemaTable[RegistryReadsCollection]);
    OneField(SchemaTable[RegistryWritesCollection]);
  }

  lemma TwoFields(ixs: seq<IndexModel>)
    requires ixs == [Ascending("user_id", "user_id", false), Ascending("skylink_id", "skylink_id", false)]
    ensures IndexedFields(ixs) == {"user_id", "skylink_id"}
  {
    forall f ensures f in IndexedFields(ixs) <==> f in {"user_id", "skylink_id"} {
      if f == "user_id" { assert (f, 1) in ixs[0].keys; }
      if f == "skylink_id" { assert (f, 1) in ixs[1].keys; }
    }
  }

  lemma OneField(ixs: seq<IndexModel>)
    requires ixs == [Ascending("user_id", "user_id", false)]
    ensures IndexedFields(ixs) == {"user_id"}
  {
    assert ("user_id", 1) in ixs[0].keys;
  }

  // ------------------------------------------------------------ provisioning

  /** What exists in the database: each collection with its indexes. */
  type Catalog = map<string, seq<IndexModel>>

  /** `ensureCollection`: an existing collection is used as it is; a missing
      one is created, which can fail. */
  function EnsureCollection(cat: Catalog, name: string, createFault: Option<Error>): (r: Result<Catalog>)
    ensures name in cat ==> r == Ok(cat)
    ensures r.Err? <==> name !in cat && createFault.Some?
    ensures r.Ok? ==> name in r.value && r.value == cat[name := r.value[name]]
  {
    if name in cat then Ok(cat)
    else match createFault
      case Some(e) => Err(e)
      case None => Ok(cat[name := []])
  }

  /** Two index definitions that cannot both exist: the same name or the
      same keys, but not the same index. */
  predicate Clashes(a: IndexModel, b: IndexModel)
  {
    a != b && (a.name == b.name || a.keys == b.keys)
  }

  /** Some index of `existing` clashes with `m`. */
  predicate ClashesWithAny(existing: seq<IndexModel>, m: IndexModel)
    decreases |existing|
  {
    existing != [] && (Clashes(existing[0], m) || ClashesWithAny(existing[1..], m))
  }

  /** Indexes none of which clashes with `m` do not clash with it. */
  lemma {:induction false} NoneClashes(existing: seq<IndexModel>, m: IndexModel)
    requires forall k :: 0 <= k < |existing| ==> !Clashes(existing[k], m)
    ensures !ClashesWithAny(existing, m)
    decreases |existing|
  {
    if existing != [] {
      assert forall k :: 0 <= k < |existing[1..]| ==> existing[1..][k] == existing[k + 1];
      NoneClashes(existing[1..], m);
    }
  }

  /** Creating the indexes of `models` on a collection that has `existing`:
      an index already there with the same definition is left alone, one
      that clashes with an existing index fails the call. */
  function CreateIndexes(existing: seq<IndexModel>, models: seq<IndexModel>): (r: Result<seq<IndexModel>>)
    ensures r.Ok? ==> Created(existing, models, r.value)
    decreases |models|
  {
    if models == [] then Ok(existing)
    else
      var m := models[0];
      if m in existing then
        var r := CreateIndexes(existing, models[1..]);
        if r.Ok? then SkipPresent(existing, models, r.value); r else r
      else if ClashesWithAny(existing, m) then
        Err(Failure("an index with this name or these keys already exists with different options"))
      else
        var r := CreateIndexes(existing + [m], models[1..]);
        if r.Ok? then AppendNew(existing, models, r.value); r else r
  }

  /** What a successful creation returns: `existing` unchanged at the
      front, each of `models`, and nothing else. */
  predicate Created(existing: seq<IndexModel>, models: seq<IndexModel>, out: seq<IndexModel>)
  {
    && |existing| <= |out| && out[..|existing|] == existing
    && (forall m :: m in models ==> m in out)
    && (forall m :: m in out ==> m in existing || m in models)
  }

  /** Skipping a model that is already there. */
  lemma SkipPresent(existing: seq<IndexModel>, models: seq<IndexModel>, out: seq<IndexModel>)
    requires models != [] && models[0] in existing
    requires Created(existing, models[1..], out)
    ensures Created(existing, models, out)
  {
    assert forall x :: x in models ==> x == models[0] || x in models[1..];
    var k :| 0 <= k < |existing| && existing[k] == models[0];
    assert out[k] == existing[k];
  }

  /** Appending a model that is not there yet. */
  lemma AppendNew(existing: seq<IndexModel>, models: seq<IndexModel>, out: seq<IndexModel>)
    requires models != []
    requires Created(existing + [models[0]], models[1..], out)
    ensures Created(existing, models, out)
  {
    assert forall x :: x in models ==> x == models[0] || x in models[1..];
    var ext := existing + [models[0]];
    assert out[..|existing|] == ext[..|existing|] == existing;
    assert out[|existing|] == ext[|existing|] == models[0];
  }

  /** Every model already present: creation changes nothing. */
  lemma {:induction false} CreateIndexesPresent(existing: seq<IndexModel>, models: seq<IndexModel>)
    requires forall m :: m in models ==> m in existing
    ensures CreateIndexes(existing, models) == Ok(existing)
    decreases |models|
  {
    if models != [] {
      CreateIndexesPresent(existing, models[1..]);
    }
  }

  /** The indexes a collection has before provisioning: none when it does
      not exist yet. */
  function Existing(cat: Catalog, name: string): seq<IndexModel>
  {
    if name in cat then cat[name] else []
  }

  /** One turn of the `ensureDBSchema` loop: `ensureCollection`, then
      `CreateMany`, which can fail outright (`indexFault`) or because of a
      clash; the collection's indexes afterwards. */
  function ProvisionCollection(cat: Catalog, name: string, models: seq<IndexModel>,
                               createFault: Option<Error>, indexFault: Option<Error>): (r: Result<seq<IndexModel>>)
    ensures r.Ok? <==> (name in cat || createFault.None?) && indexFault.None?
                       && CreateIndexes(Existing(cat, name), models).Ok?
    ensures r.Ok? ==> Created(Existing(cat, name), models, r.value)
    ensures r.Err? && (name in cat || createFault.None?) ==> r.error.Context? && r.error.msg == "failed to create indexes"
  {
    match EnsureCollection(cat, name, createFault)
    case Err(e) => Err(e)
    case Ok(cat1) =>
      assert cat1[name] == Existing(cat, name);
      match indexFault
      case Some(e) => Err(Context("failed to create indexes", e))
      case None =>
        match CreateIndexes(cat1[name], models)
        case Err(e) => Err(Context("failed to create indexes", e))
        case Ok(ixs) => Ok(ixs)
  }

  /** Replacing a collection's indexes by a list that starts with them
      keeps every index of the catalog. */
  lemma KeepsIndexes(cat: Catalog, name: string, ixs: seq<IndexModel>)
    requires |Existing(cat, name)| <= |ixs| && ixs[..|Existing(cat, name)|] == Existing(cat, name)
    ensures forall c, m :: c in cat && m in cat[c] ==> m in cat[name := ixs][c]
  {
    forall c, m | c in cat && m in cat[c] ensures m in cat[name := ixs][c] {
      if c == name {
        var k :| 0 <= k < |cat[c]| && cat[c][k] == m;
        assert ixs[k] == m;
      }
    }
  }

  /** `ensureDBSchema` over the collections in `order` (Go visits the
      schema map in an unspecified order, so every order is allowed): the
      first failure stops provisioning and is returned. */
  function Provision(cat: Catalog, order: seq<string>, schema: map<string, seq<IndexModel>>,
                     createFault: string -> Option<Error>, indexFault: string -> Option<Error>): (r: Result<Catalog>)
    requires forall i :: 0 <= i < |order| ==> order[i] in schema
    ensures r.Ok? ==> cat.Keys <= r.value.Keys
    ensures r.Ok? ==> forall c, m :: c in cat && m in cat[c] ==> m in r.value[c]
    ensures r.Ok? ==> forall c :: c in r.value && c !in order ==> c in cat && r.value[c] == cat[c]
    ensures r.Ok? ==> forall i :: 0 <= i < |order| ==> order[i] in r.value
    ensures r.Ok? ==> forall i, m :: 0 <= i < |order| && m in schema[order[i]] ==> m in r.value[order[i]]
    decreases |order|
  {
    if order == [] then Ok(cat)
    else
      var name := order[0];
      match ProvisionCollection(cat, name, schema[name], createFault(name), indexFault(name))
      case Err(e) => Err(e)
      case Ok(ixs) =>
        KeepsIndexes(cat, name, ixs);
        var r := Provision(cat[name := ixs], order[1..], schema, createFault, indexFault);
        assert forall i :: 1 <= i < |order| ==> order[i] == order[1..][i - 1];
        r
  }

  /** Provisioning a catalog that already has every collection of `order`
      with all of its indexes changes nothing, provided `CreateMany` itself
      does not fail. */
  lemma {:induction false} ProvisionSettled(cat: Catalog, order: seq<string>, schema: map<string, seq<IndexModel>>,
                                            createFault: string -> Option<Error>, indexFault: string -> Option<Error>)
    requires forall i :: 0 <= i < |order| ==> order[i] in schema && indexFault(order[i]).None?
    requires forall i :: 0 <= i < |order| ==> order[i] in cat && forall m :: m in schema[order[i]] ==> m in cat[order[i]]
    ensures Provision(cat, order, schema, createFault, indexFault) == Ok(cat)
    decreases |order|
  {
    if order != [] {
      var name := order[0];
      CreateIndexesPresent(cat[name], schema[name]);
      assert cat[name := cat[name]] == cat;
      assert forall i :: 0 <= i < |order[1..]| ==> order[1..][i] == order[i + 1];
      ProvisionSettled(cat, order[1..], schema, createFault, indexFault);
    }
  }

  /** Running provisioning a second time, in any order over the same
      collections and whatever creating a collection would do, changes
      nothing and reports no error, provided `CreateMany` itself does not
      fail. */
  lemma ProvisionIdempotent(cat: Catalog, order: seq<string>, order2: seq<string>,
                            schema: map<string, seq<IndexModel>>,
                            createFault: string -> Option<Error>, indexFault: string -> Option<Error>,
                            createFault2: string -> Option<Error>, indexFault2: string -> Option<Error>)
    requires forall i :: 0 <= i < |order| ==> order[i] in schema
    requires forall i :: 0 <= i < |order2| ==> order2[i] in schema && order2[i] in order && indexFault2(order2[i]).None?
    requires Provision(cat, order, schema, createFault, indexFault).Ok?
    ensures var once := Provision(cat, order, schema, createFault, indexFault).value;
            Provision(once, order2, schema, createFault2, indexFault2) == Ok(once)
  {
    var once := Provision(cat, order, schema, createFault, indexFault).value;
    forall i | 0 <= i < |order2|
      ensures order2[i] in schema && order2[i] in once && forall m :: m in schema[order2[i]] ==> m in once[order2[i]]
    {
      assert order2[i] in order;
      var j :| 0 <= j < |order| && order[j] == order2[i];
    }
    ProvisionSettled(once, order2, schema, createFault2, indexFault2);
  }

  /** With no clashing index and no failing call, provisioning succeeds, in
      any order of the collections. */
  lemma {:induction false} ProvisionSucceeds(cat: Catalog, order: seq<string>, schema: map<string, seq<IndexModel>>,
                                             createFault: string -> Option<Error>, indexFault: string -> Option<Error>)
    requires forall i :: 0 <= i < |order| ==> order[i] in schema && indexFault(order[i]).None?
    requires forall i :: 0 <= i < |order| ==> order[i] in cat || createFault(order[i]).None?
    requires forall c, k, m :: c in cat && 0 <= k < |cat[c]| && c in schema && m in schema[c] ==> !Clashes(cat[c][k], m)
    requires forall c, m, m2 :: c in schema && m in schema[c] && m2 in schema[c] ==> !Clashes(m, m2)
    ensures Provision(cat, order, schema, createFault, indexFault).Ok?
    decreases |order|
  {
    if order != [] {
      var name := order[0];
      CreateIndexesSucceed(Existing(cat, name), schema[name], schema[name]);
      var ixs := ProvisionCollection(cat, name, schema[name], createFault(name), indexFault(name)).value;
      var cat2 := cat[name := ixs];
      forall c, k, m | c in cat2 && 0 <= k < |cat2[c]| && c in schema && m in schema[c]
        ensures !Clashes(cat2[c][k], m)
      {
        if c == name {
          assert cat2[c][k] in ixs;
          if cat2[c][k] !in schema[c] {
            var j :| 0 <= j < |Existing(cat, name)| && Existing(cat, name)[j] == cat2[c][k];
          }
        }
      }
      forall i | 0 <= i < |order[1..]| ensures order[1..][i] in cat2 || createFault(order[1..][i]).None? {
        assert order[1..][i] == order[i + 1];
      }
      ProvisionSucceeds(cat2, order[1..], schema, createFault, indexFault);
    }
  }

  /** No collection is listed twice, as when Go ranges over a map. */
  predicate Distinct(order: seq<string>)
  {
    forall i, j :: 0 <= i < j < |order| ==> order[i] != order[j]
  }

  /** A turn of the loop reads only its own collection. */
  lemma CollectionLocal(cat: Catalog, cat2: Catalog, name: string, models: seq<IndexModel>,
                        createFault: Option<Error>, indexFault: Option<Error>)
    requires (name in cat <==> name in cat2) && (name in cat ==> cat[name] == cat2[name])
    ensures ProvisionCollection(cat, name, models, createFault, indexFault)
            == ProvisionCollection(cat2, name, models, createFault, indexFault)
  {
    assert Existing(cat, name) == Existing(cat2, name);
  }

  /** The turn of the loop for collection `c`, run on catalog `cat`. */
  function Turn(cat: Catalog, c: string, schema: map<string, seq<IndexModel>>,
                createFault: string -> Option<Error>, indexFault: string -> Option<Error>): Result<seq<IndexModel>>
    requires c in schema
  {
    ProvisionCollection(cat, c, schema[c], createFault(c), indexFault(c))
  }

  /** The first turn of a distinct order leaves the collections of the
      other turns as they were. */
  lemma FirstTurnLocal(cat: Catalog, order: seq<string>, schema: map<string, seq<IndexModel>>,
                       createFault: string -> Option<Error>, indexFault: string -> Option<Error>, ixs: seq<IndexModel>)
    requires order != [] && Distinct(order)
    requires forall i :: 0 <= i < |order| ==> order[i] in schema
    ensures Distinct(order[1..]) && order[0] !in order[1..]
    ensures forall c :: c in order <==> c == order[0] || c in order[1..]
    ensures forall c :: c in order[1..] ==>
              Turn(cat[order[0] := ixs], c, schema, createFault, indexFault) == Turn(cat, c, schema, createFault, indexFault)
  {
    var rest := order[1..];
    assert forall i :: 0 <= i < |rest| ==> rest[i] == order[i + 1];
    assert forall c :: c in order ==> c == order[0] || c in rest by {
      assert order == [order[0]] + rest;
    }
    forall c | c in rest
      ensures Turn(cat[order[0] := ixs], c, schema, createFault, indexFault) == Turn(cat, c, schema, createFault, indexFault)
    {
      CollectionLocal(cat[order[0] := ixs], cat, c, schema[c], createFault(c), indexFault(c));
    }
  }

  /** Provisioning succeeds exactly when every turn of the loop, run on the
      catalog as it was, succeeds. */
  lemma {:induction false} ProvisionOkIff(cat: Catalog, order: seq<string>, schema: map<string, seq<IndexModel>>,
                                          createFault: string -> Option<Error>, indexFault: string -> Option<Error>)
    requires forall i :: 0 <= i < |order| ==> order[i] in schema
    requires Distinct(order)
    ensures Provision(cat, order, schema, createFault, indexFault).Ok?
            <==> forall c :: c in order ==> Turn(cat, c, schema, createFault, indexFault).Ok?
    decreases |order|
  {
    if order != [] {
      var name := order[0];
      match Turn(cat, name, schema, createFault, indexFault)
      case Err(e) =>
      case Ok(ixs) =>
        FirstTurnLocal(cat, order, schema, createFault, indexFault, ixs);
        ProvisionOkIff(cat[name := ixs], order[1..], schema, createFault, indexFault);
    }
  }

  /** After provisioning, each listed collection holds what its own turn of
      the loop made from the catalog as it was, and every other one is as
      it was. */
  lemma {:induction false} ProvisionPerCollection(cat: Catalog, order: seq<string>, schema: map<string, seq<IndexModel>>,
                                                  createFault: string -> Option<Error>, indexFault: string -> Option<Error>)
    requires forall i :: 0 <= i < |order| ==> order[i] in schema
    requires Distinct(order)
    requires Provision(cat, order, schema, createFault, indexFault).Ok?
    ensures forall c :: c in order ==> Turn(cat, c, schema, createFault, indexFault).Ok?
    ensures var r := Provision(cat, order, schema, createFault, indexFault).value;
            && (forall c :: c in r <==> c in cat || c in order)
            && (forall c :: c in r ==> r[c] == if c in order then Turn(cat, c, schema, createFault, indexFault).value else cat[c])
    decreases |order|
  {
    ProvisionOkIff(cat, order, schema, createFault, indexFault);
    if order != [] {
      var name := order[0];
      var ixs := Turn(cat, name, schema, createFault, indexFault).value;
      FirstTurnLocal(cat, order, schema, createFault, indexFault, ixs);
      ProvisionPerCollection(cat[name := ixs], order[1..], schema, createFault, indexFault);
    }
  }

  /** The order in which Go happens to visit the schema map does not matter
      when provisioning succeeds: two orders listing the same collections
      both succeed or both fail, and succeed with the same catalog.  Which
      error a failing run returns can depend on the order. */
  lemma ProvisionOrderFree(cat: Catalog, order: seq<string>, order2: seq<string>, schema: map<string, seq<IndexModel>>,
                           createFault: string -> Option<Error>, indexFault: string -> Option<Error>)
    requires forall i :: 0 <= i < |order| ==> order[i] in schema
    requires forall i :: 0 <= i < |order2| ==> order2[i] in schema
    requires Distinct(order) && Distinct(order2)
    requires forall c :: c in order <==> c in order2
    ensures Provision(cat, order, schema, createFault, indexFault).Ok?
            == Provision(cat, order2, schema, createFault, indexFault).Ok?
    ensures Provision(cat, order, schema, createFault, indexFault).Ok? ==>
              Provision(cat, order, schema, createFault, indexFault) == Provision(cat, order2, schema, createFault, indexFault)
  {
    ProvisionOkIff(cat, order, schema, createFault, indexFault);
    ProvisionOkIff(cat, order2, schema, createFault, indexFault);
    if Provision(cat, order, schema, createFault, indexFault).Ok? {
      ProvisionPerCollection(cat, order, schema, createFault, indexFault);
      ProvisionPerCollection(cat, order2, schema, createFault, indexFault);
      SameCatalog(Provision(cat, order, schema, createFault, indexFault).value,
                  Provision(cat, order2, schema, createFault, indexFault).value);
    }
  }

  /** Catalogs with the same collections holding the same indexes are equal. */
  lemma SameCatalog(a: Catalog, b: Catalog)
    requires forall c :: c in a <==> c in b
    requires forall c :: c in a ==> a[c] == b[c]
    ensures a == b
  {
  }

  /** Creating indexes drawn from a clash-free set on a collection whose
      indexes do not clash with that set succeeds. */
  lemma {:induction false} CreateIndexesSucceed(existing: seq<IndexModel>, models: seq<IndexModel>, all: seq<IndexModel>)
    requires forall m :: m in models ==> m in all
    requires forall k, m :: 0 <= k < |existing| && m in all ==> !Clashes(existing[k], m)
    requires forall m, m2 :: m in all && m2 in all ==> !Clashes(m, m2)
    ensures CreateIndexes(existing, models).Ok?
    decreases |models|
  {
    if models != [] {
      var m := models[0];
      forall m2 | m2 in models[1..] ensures m2 in all { assert m2 in models; }
      if m !in existing {
        assert m in models && m in all;
        NoneClashes(existing, m);
        var ext := existing + [m];
        forall k, m2 | 0 <= k < |ext| && m2 in all ensures !Clashes(ext[k], m2) {
          if k == |existing| { assert ext[k] == m; }
          else { assert ext[k] == existing[k]; }
        }
        CreateIndexesSucceed(ext, models[1..], all);
      } else {
        CreateIndexesSucceed(existing, models[1..], all);
      }
    }
  }

  /** The service's own schema has no two clashing indexes on a collection. */
  lemma SchemaTableClashFree()
    ensures forall c, m, m2 :: c in SchemaTable && m in SchemaTable[c] && m2 in SchemaTable[c] ==> !Clashes(m, m2)
  {
  }

  /** The collections of the service's own schema table, in any order Go
      may visit them, are provisioned without error on a catalog none of
      whose indexes clashes with the table, when no call fails. */
  lemma ServiceSchemaProvisions(cat: Catalog, order: seq<string>,
                                createFault: string -> Option<Error>, indexFault: string -> Option<Error>)
    requires forall i :: 0 <= i < |order| ==> order[i] in SchemaTable && indexFault(order[i]).None?
    requires forall i :: 0 <= i < |order| ==> order[i] in cat || createFault(order[i]).None?
    requires forall c, k, m :: c in cat && 0 <= k < |cat[c]| && c in SchemaTable && m in SchemaTable[c] ==> !Clashes(cat[c][k], m)
    ensures Provision(cat, order, SchemaTable, createFault, indexFault).Ok?
  {
    SchemaTableClashFree();
    ProvisionSucceeds(cat, order, SchemaTable, createFault, indexFault);
  }
}
