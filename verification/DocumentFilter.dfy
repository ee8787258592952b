/** The two filters over an OpenAPI document: by authentication scheme and by hidden tags. */
module DocumentFilter {
  import opened Json
  import opened SchemaReferences
  import opened Wrappers

  type Fields = map<string, Json>

  datatype Components = Components(schemas: Option<Schemas>, securitySchemes: Option<Fields>, rest: Fields)

  datatype Document = Document(paths: Fields, components: Option<Components>, rest: Fields)

  const HTTP_METHODS := ["get", "post", "put", "patch", "delete"]

  predicate ListsKey(requirements: seq<Json>, authKey: string) {
    exists i :: 0 <= i < |requirements| && requirements[i].Obj? && authKey in requirements[i].fields
  }

  /** The operation's security list has an entry for the scheme. */
  predicate HasAuthKey(operation: Fields, authKey: string) {
    && "security" in operation && operation["security"].Arr?
    && ListsKey(operation["security"].items, authKey)
  }

  /** None of the operation's tags is excluded. */
  predicate HasNoTagIn(operation: Fields, excluded: seq<string>) {
    "tags" in operation && operation["tags"].Arr? ==>
      forall i :: 0 <= i < |operation["tags"].items| && operation["tags"].items[i].Str? ==>
        operation["tags"].items[i].s !in excluded
  }

  /** What a filter keeps of the operations of a document. */
  datatype Criterion =
    | WithAuthKey(authKey: string)
    | WithoutTags(excluded: seq<string>)
    | Both(first: Criterion, second: Criterion)

  predicate Keeps(c: Criterion, operation: Fields) {
    match c
    case WithAuthKey(authKey) => HasAuthKey(operation, authKey)
    case WithoutTags(excluded) => HasNoTagIn(operation, excluded)
    case Both(c1, c2) => Keeps(c1, operation) && Keeps(c2, operation)
  }

  /** The kept operations of a path item; anything that is not an HTTP method with an operation goes. */
  function KeptOperations(pathItem: Json, c: Criterion): Fields {
    if !pathItem.Obj? then map[]
    else
      var fields := pathItem.fields;
      map m | m in fields && m in HTTP_METHODS && fields[m].Obj? && Keeps(c, fields[m].fields) :: fields[m]
  }

  function KeptPaths(paths: Fields, c: Criterion): Fields {
    map p | p in paths && KeptOperations(paths[p], c) != map[] :: Obj(KeptOperations(paths[p], c))
  }

  function KeptSchemas(schemas: Option<Schemas>): Schemas {
    if schemas.Some? then schemas.value else map[]
  }

  /** An absent table stays absent; otherwise only the scheme named by a non-empty key survives. */
  function KeptSecuritySchemes(schemes: Option<Fields>, authKey: string): Option<Fields> {
    if authKey == "" || schemes.None? then schemes
    else Some(map k | k in schemes.value && k == authKey && Truthy(schemes.value[k]) :: schemes.value[k])
  }

  /** The filtered document; a document without components gets empty ones. */
  ghost function Filtered(d: Document, c: Criterion, authKey: string): Document {
    var paths := KeptPaths(d.paths, c);
    var components := if d.components.Some? then d.components.value else Components(None, None, map[]);
    var all := KeptSchemas(components.schemas);
    Document(
      paths,
      Some(Components(
        Some(Restrict(all, Reach(all, Refs(Obj(paths))))),
        KeptSecuritySchemes(components.securitySchemes, authKey),
        components.rest)),
      d.rest)
  }

  ghost function FilteredByAuthKey(d: Document, authKey: string): Document {
    Filtered(d, WithAuthKey(authKey), authKey)
  }

  /** An empty list of tags leaves the document alone; an absent key filters no security scheme. */
  ghost function FilteredByTags(d: Document, excludedTags: seq<string>, authKey: Option<string>): Document {
    if excludedTags == [] then d
    else Filtered(d, WithoutTags(excludedTags), if authKey.Some? then authKey.value else "")
  }

  // ----- composing two filters -----

  lemma KeptOperationsCompose(pathItem: Json, c1: Criterion, c2: Criterion)
    ensures KeptOperations(Obj(KeptOperations(pathItem, c1)), c2) == KeptOperations(pathItem, Both(c1, c2))
  {
  }

  lemma KeptPathsCompose(paths: Fields, c1: Criterion, c2: Criterion)
    ensures KeptPaths(KeptPaths(paths, c1), c2) == KeptPaths(paths, Both(c1, c2))
  {
    forall p | p in paths
      ensures KeptOperations(Obj(KeptOperations(paths[p], c1)), c2) == KeptOperations(paths[p], Both(c1, c2))
      ensures KeptOperations(paths[p], c1) == map[] ==> KeptOperations(paths[p], Both(c1, c2)) == map[]
    {
      KeptOperationsCompose(paths[p], c1, c2);
    }
  }

  lemma KeptOperationsBothWays(pathItem: Json, c1: Criterion, c2: Criterion)
    ensures KeptOperations(pathItem, Both(c1, c2)) == KeptOperations(pathItem, Both(c2, c1))
    ensures KeptOperations(pathItem, Both(c1, c1)) == KeptOperations(pathItem, c1)
  {
  }

  lemma KeptPathsAgree(paths: Fields, c1: Criterion, c2: Criterion)
    requires forall p :: p in paths ==> KeptOperations(paths[p], c1) == KeptOperations(paths[p], c2)
    ensures KeptPaths(paths, c1) == KeptPaths(paths, c2)
  {
  }

  lemma KeptPathsBothWays(paths: Fields, c1: Criterion, c2: Criterion)
    ensures KeptPaths(paths, Both(c1, c2)) == KeptPaths(paths, Both(c2, c1))
    ensures KeptPaths(paths, Both(c1, c1)) == KeptPaths(paths, c1)
  {
    forall p | p in paths
      ensures KeptOperations(paths[p], Both(c1, c2)) == KeptOperations(paths[p], Both(c2, c1))
      ensures KeptOperations(paths[p], Both(c1, c1)) == KeptOperations(paths[p], c1)
    {
      KeptOperationsBothWays(paths[p], c1, c2);
    }
    KeptPathsAgree(paths, Both(c1, c2), Both(c2, c1));
    KeptPathsAgree(paths, Both(c1, c1), c1);
  }

  lemma FieldRefers(fields: Fields, k: string, r: string)
    requires k in fields && r in Refs(fields[k])
    ensures r in Refs(Obj(fields))
  {
  }

  /** An object without a string under $ref refers to what its fields refer to. */
  lemma ReferringField(fields: Fields, r: string) returns (k: string)
    requires r in Refs(Obj(fields)) && ("$ref" in fields ==> !fields["$ref"].Str?)
    ensures k in fields && r in Refs(fields[k])
  {
    assert r !in OwnRef(fields);
    k :| k in fields && r in Refs(fields[k]);
  }

  /** A kept path refers to nothing the document's paths did not refer to. */
  lemma FilteringOnlyDropsReferences(paths: Fields, c: Criterion)
    ensures Refs(Obj(KeptPaths(paths, c))) <= Refs(Obj(paths))
  {
    var kept := KeptPaths(paths, c);
    forall r | r in Refs(Obj(kept)) ensures r in Refs(Obj(paths)) {
      var p := ReferringField(kept, r);
      var m := ReferringField(KeptOperations(paths[p], c), r);
      FieldRefers(paths[p].fields, m, r);
      FieldRefers(paths, p, r);
    }
  }

  lemma SecuritySchemesCompose(schemes: Option<Fields>, key1: string, key2: string)
    ensures KeptSecuritySchemes(KeptSecuritySchemes(schemes, key1), key2)
         == KeptSecuritySchemes(KeptSecuritySchemes(schemes, key2), key1)
    ensures KeptSecuritySchemes(KeptSecuritySchemes(schemes, key1), key1) == KeptSecuritySchemes(schemes, key1)
  {
    if schemes.Some? {
      var once := KeptSecuritySchemes(schemes, key1).value;
      assert KeptSecuritySchemes(Some(once), key1).value == once;
      var both := KeptSecuritySchemes(Some(once), key2).value;
      var also := KeptSecuritySchemes(KeptSecuritySchemes(schemes, key2), key1).value;
      assert both == also;
    }
  }

  /** Filtering twice is filtering once by both criteria, with reachability computed once in the whole table. */
  lemma FiltersCompose(d: Document, c1: Criterion, key1: string, c2: Criterion, key2: string)
    ensures var once, twice := Filtered(d, Both(c1, c2), ""), Filtered(Filtered(d, c1, key1), c2, key2);
      && twice.paths == once.paths
      && twice.rest == once.rest
      && twice.components.value.schemas == once.components.value.schemas
      && twice.components.value.rest == once.components.value.rest
      && twice.components.value.securitySchemes
         == KeptSecuritySchemes(KeptSecuritySchemes(once.components.value.securitySchemes, key1), key2)
  {
    var paths1 := KeptPaths(d.paths, c1);
    var paths2 := KeptPaths(paths1, c2);
    KeptPathsCompose(d.paths, c1, c2);
    FilteringOnlyDropsReferences(paths1, c2);
    var components := if d.components.Some? then d.components.value else Components(None, None, map[]);
    var all := KeptSchemas(components.schemas);
    ReachInsideRestricted(all, Refs(Obj(paths2)), Refs(Obj(paths1)));
    RestrictTwice(all, Reach(all, Refs(Obj(paths1))), Reach(all, Refs(Obj(paths2))));
  }

  lemma FiltersCommute(d: Document, c1: Criterion, key1: string, c2: Criterion, key2: string)
    ensures Filtered(Filtered(d, c1, key1), c2, key2) == Filtered(Filtered(d, c2, key2), c1, key1)
  {
    FiltersCompose(d, c1, key1, c2, key2);
    FiltersCompose(d, c2, key2, c1, key1);
    KeptPathsBothWays(d.paths, c1, c2);
    SecuritySchemesCompose(if d.components.Some? then d.components.value.securitySchemes else None, key1, key2);
  }

  lemma FilterIsIdempotent(d: Document, c: Criterion, key: string)
    ensures Filtered(Filtered(d, c, key), c, key) == Filtered(d, c, key)
  {
    FiltersCompose(d, c, key, c, key);
    KeptPathsBothWays(d.paths, c, c);
    SecuritySchemesCompose(if d.components.Some? then d.components.value.securitySchemes else None, key, key);
  }

  /**
   The authentication filter and the tag filter commute, whatever keys they are given, and each of them
   is idempotent.
   */
  lemma AuthAndTagFilters(d: Document, authKey: string, tags: seq<string>, tagAuthKey: Option<string>)
    ensures FilteredByTags(FilteredByAuthKey(d, authKey), tags, tagAuthKey)
         == FilteredByAuthKey(FilteredByTags(d, tags, tagAuthKey), authKey)
    ensures FilteredByAuthKey(FilteredByAuthKey(d, authKey), authKey) == FilteredByAuthKey(d, authKey)
    ensures FilteredByTags(FilteredByTags(d, tags, tagAuthKey), tags, tagAuthKey) == FilteredByTags(d, tags, tagAuthKey)
  {
    var tagKey := if tagAuthKey.Some? then tagAuthKey.value else "";
    FiltersCommute(d, WithAuthKey(authKey), authKey, WithoutTags(tags), tagKey);
    FilterIsIdempotent(d, WithAuthKey(authKey), authKey);
    FilterIsIdempotent(d, WithoutTags(tags), tagKey);
  }

  // ----- what a filtered document shows -----

  /** The document lists this operation under the path and the method. */
  ghost predicate Shows(paths: Fields, path: string, verb: string, operation: Json) {
    path in paths && paths[path].Obj? && verb in paths[path].fields && paths[path].fields[verb] == operation
  }

  ghost predicate IsHttpMethod(verb: string) {
    verb == "get" || verb == "post" || verb == "put" || verb == "patch" || verb == "delete"
  }

  /** An entry of the operation's security names the scheme. */
  ghost predicate NamesKey(operation: Fields, authKey: string) {
    && "security" in operation && operation["security"].Arr?
    && exists entry :: entry in operation["security"].items && entry.Obj? && authKey in entry.fields
  }

  ghost predicate TaggedWith(operation: Fields, tag: string) {
    "tags" in operation && operation["tags"].Arr? && Str(tag) in operation["tags"].items
  }

  lemma KeyIsNamedIffListed(operation: Fields, authKey: string)
    ensures HasAuthKey(operation, authKey) <==> NamesKey(operation, authKey)
  {
    if NamesKey(operation, authKey) {
      var items := operation["security"].items;
      var entry :| entry in items && entry.Obj? && authKey in entry.fields;
      var i :| 0 <= i < |items| && items[i] == entry;
      assert items[i].Obj?;
    }
  }

  lemma NoTagIffUntagged(operation: Fields, excluded: seq<string>)
    ensures HasNoTagIn(operation, excluded) <==> forall tag :: tag in excluded ==> !TaggedWith(operation, tag)
  {
    if "tags" in operation && operation["tags"].Arr? {
      var items := operation["tags"].items;
      if HasNoTagIn(operation, excluded) {
        forall tag | tag in excluded ensures Str(tag) !in items {
          assert forall i :: 0 <= i < |items| ==> items[i] != Str(tag);
        }
      }
      if forall tag :: tag in excluded ==> !TaggedWith(operation, tag) {
        forall i | 0 <= i < |items| && items[i].Str? ensures items[i].s !in excluded {
          assert items[i] == Str(items[i].s);
          assert TaggedWith(operation, items[i].s);
        }
      }
    }
  }

  lemma MethodsAreFive(verb: string)
    ensures verb in HTTP_METHODS <==> IsHttpMethod(verb)
  {
    assert HTTP_METHODS[0] == "get" && HTTP_METHODS[1] == "post" && HTTP_METHODS[2] == "put";
    assert HTTP_METHODS[3] == "patch" && HTTP_METHODS[4] == "delete";
  }

  lemma KeptIsShown(paths: Fields, c: Criterion, path: string, verb: string, operation: Json)
    ensures Shows(KeptPaths(paths, c), path, verb, operation) <==>
      Shows(paths, path, verb, operation) && IsHttpMethod(verb) && operation.Obj? && Keeps(c, operation.fields)
  {
    MethodsAreFive(verb);
    if path in paths {
      var kept := KeptOperations(paths[path], c);
      if verb in kept {
        assert kept != map[];
      }
    }
  }

  /** Under a key a document shows the operations whose security names the key, and no others. */
  lemma ShownUnderKey(d: Document, authKey: string, path: string, verb: string, operation: Json)
    ensures Shows(FilteredByAuthKey(d, authKey).paths, path, verb, operation) <==>
      Shows(d.paths, path, verb, operation) && IsHttpMethod(verb) && operation.Obj?
          && NamesKey(operation.fields, authKey)
  {
    KeptIsShown(d.paths, WithAuthKey(authKey), path, verb, operation);
    if operation.Obj? {
      KeyIsNamedIffListed(operation.fields, authKey);
    }
  }

  /** Without some tags it shows the operations that have none of them. */
  lemma ShownWithoutTags(d: Document, tags: seq<string>, authKey: Option<string>, path: string, verb: string,
                         operation: Json)
    requires tags != []
    ensures Shows(FilteredByTags(d, tags, authKey).paths, path, verb, operation) <==>
      && Shows(d.paths, path, verb, operation) && IsHttpMethod(verb) && operation.Obj?
      && forall tag :: tag in tags ==> !TaggedWith(operation.fields, tag)
  {
    KeptIsShown(d.paths, WithoutTags(tags), path, verb, operation);
    if operation.Obj? {
      NoTagIffUntagged(operation.fields, tags);
    }
  }

  function SchemasOf(d: Document): Schemas {
    if d.components.Some? && d.components.value.schemas.Some? then d.components.value.schemas.value else map[]
  }

  /** A filtered document keeps exactly the schemas it has that its kept paths reach, as they are. */
  lemma KeptSchemasAreReached(d: Document, c: Criterion, authKey: string, name: string)
    ensures var kept := SchemasOf(Filtered(d, c, authKey));
      && (name in kept <==>
            name in SchemasOf(d) && Truthy(SchemasOf(d)[name])
              && Reachable(SchemasOf(d), Refs(Obj(KeptPaths(d.paths, c))), name))
      && (name in kept ==> kept[name] == SchemasOf(d)[name])
  {
    var all, roots := SchemasOf(d), Refs(Obj(KeptPaths(d.paths, c)));
    ReachHoldsTheReachable(all, roots, name);
    assert SchemasOf(Filtered(d, c, authKey)) == Restrict(all, Reach(all, roots));
  }

  /** An operation shown under a key keeps each schema that one of its references names. */
  lemma ReferencedSchemaIsKept(d: Document, authKey: string, path: string, verb: string, operation: Json,
                               hops: seq<Hop>,
                               name: string)
    requires Shows(FilteredByAuthKey(d, authKey).paths, path, verb, operation)
    requires var end := Follow(operation, hops);
      && end.Some? && end.value.Obj? && "$ref" in end.value.fields
      && end.value.fields["$ref"] == Str("#/components/schemas/" + name)
    requires name != "" && forall i :: 0 <= i < |name| ==> !LineBreak(name[i])
    requires name in SchemasOf(d) && Truthy(SchemasOf(d)[name])
    ensures name in SchemasOf(FilteredByAuthKey(d, authKey))
    ensures SchemasOf(FilteredByAuthKey(d, authKey))[name] == SchemasOf(d)[name]
  {
    var paths := FilteredByAuthKey(d, authKey).paths;
    RefTargetRoundTrip(name);
    assert RefersAt(operation, hops, name);
    RefsAreAlongPaths(operation, name);
    FieldRefers(paths[path].fields, verb, name);
    FieldRefers(paths, path, name);
    RootIsReachable(SchemasOf(d), Refs(Obj(paths)), name);
    KeptSchemasAreReached(d, WithAuthKey(authKey), authKey, name);
  }

  /** Of the security schemes, a document under a key keeps only the key's own, if it has one. */
  lemma OnlyTheKeysSchemeIsKept(d: Document, authKey: string, schemes: Fields, name: string)
    requires authKey != "" && d.components.Some? && d.components.value.securitySchemes == Some(schemes)
    ensures var kept := FilteredByAuthKey(d, authKey).components.value.securitySchemes;
      && kept.Some?
      && (name in kept.value <==> name == authKey && name in schemes && Truthy(schemes[name]))
      && (name in kept.value ==> kept.value[name] == schemes[name])
  {
  }

  // ----- the service's code -----

  /** The method loop over one path item, with the check that the calling filter makes on an operation. */
  method FilterPathItem(pathItem: Json, c: Criterion) returns (kept: Fields)
    ensures kept == KeptOperations(pathItem, c)
  {
    kept := map[];
    var record: Fields := if pathItem.Obj? then pathItem.fields else map[];
    for i := 0 to |HTTP_METHODS|
      invariant forall m :: m in kept <==>
        m in record && m in HTTP_METHODS[..i] && record[m].Obj? && Keeps(c, record[m].fields)
      invariant forall m :: m in kept ==> kept[m] == record[m]
    {
      var verb := HTTP_METHODS[i];
      assert forall m :: m in HTTP_METHODS[..i + 1] <==> m in HTTP_METHODS[..i] || m == verb;
      if verb !in record || !record[verb].Obj? {
        continue;
      }
      if !Keeps(c, record[verb].fields) {
        continue;
      }
      kept := kept[verb := record[verb]];
    }
    assert HTTP_METHODS[..|HTTP_METHODS|] == HTTP_METHODS;
  }

  method FilterPaths(paths: Fields, c: Criterion) returns (filteredPaths: Fields)
    ensures filteredPaths == KeptPaths(paths, c)
  {
    filteredPaths := map[];
    var todo := paths.Keys;
    while todo != {}
      invariant todo <= paths.Keys
      invariant forall p :: p in filteredPaths <==> p in paths && p !in todo && KeptOperations(paths[p], c) != map[]
      invariant forall p :: p in filteredPaths ==> filteredPaths[p] == Obj(KeptOperations(paths[p], c))
      decreases |todo|
    {
      var path :| path in todo;
      todo := todo - {path};
      var filteredPathItem := FilterPathItem(paths[path], c);
      if filteredPathItem != map[] {
        filteredPaths := filteredPaths[path := Obj(filteredPathItem)];
      }
    }
  }

  method FilterComponents(components: Components, usedSchemas: set<string>, authKey: string) returns (r: Components)
    ensures var all := KeptSchemas(components.schemas);
      r == Components(Some(Restrict(all, Reach(all, usedSchemas))),
                      KeptSecuritySchemes(components.securitySchemes, authKey), components.rest)
  {
    var allSchemas := if components.schemas.Some? then components.schemas.value else map[];
    var none := CollectUsedSchemas(Obj(map[]), Some(allSchemas));
    NothingReachedFromNothing(allSchemas);
    assert none + usedSchemas == usedSchemas;
    var finalUsedSchemas := CloseUnderReferences(allSchemas, none + usedSchemas);
    var filteredSchemas := map n | n in finalUsedSchemas && Present(allSchemas, n) :: allSchemas[n];
    var filteredSecuritySchemes := components.securitySchemes;
    if authKey != "" && components.securitySchemes.Some? {
      var schemes := components.securitySchemes.value;
      var known := authKey in schemes && Truthy(schemes[authKey]);
      filteredSecuritySchemes := Some(if known then map[authKey := schemes[authKey]] else map[]);
      assert filteredSecuritySchemes.value == KeptSecuritySchemes(components.securitySchemes, authKey).value;
    }
    assert filteredSchemas == Restrict(allSchemas, Reach(allSchemas, usedSchemas));
    assert filteredSecuritySchemes == KeptSecuritySchemes(components.securitySchemes, authKey);
    r := Components(Some(filteredSchemas), filteredSecuritySchemes, components.rest);
  }

  lemma NothingReachedFromNothing(all: Schemas)
    ensures Restrict(all, Reach(all, Refs(Obj(map[])))).Keys == {}
  {
    assert Refs(Obj(map[])) == {};
    ReachIsInside(all, {}, {});
  }

  method Filter(document: Document, c: Criterion, authKey: string) returns (r: Document)
    ensures r == Filtered(document, c, authKey)
  {
    var components := if document.components.Some? then document.components.value else Components(None, None, map[]);
    var filteredPaths := FilterPaths(document.paths, c);
    var usedSchemas := CollectUsedSchemas(Obj(filteredPaths), None);
    var filteredComponents := FilterComponents(components, usedSchemas, authKey);
    r := Document(filteredPaths, Some(filteredComponents), document.rest);
  }

  method GetFilteredDocument(document: Document, authKey: string) returns (r: Document)
    ensures r == FilteredByAuthKey(document, authKey)
  {
    r := Filter(document, WithAuthKey(authKey), authKey);
  }

  method GetDocumentWithoutTags(document: Document, excludedTags: seq<string>, authKey: Option<string>)
    returns (r: Document)
    ensures r == FilteredByTags(document, excludedTags, authKey)
  {
    if |excludedTags| == 0 {
      return document;
    }
    r := Filter(document, WithoutTags(excludedTags), if authKey.Some? then authKey.value else "");
  }
}
