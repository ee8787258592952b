/** The document cache in front of the filters, and when a cached answer is the one the filters would give. */
module DocumentCache {
  import opened DocumentFilter
  import opened Json
  import opened Strings
  import opened Wrappers

  const HIDDEN_TAGS := ["portal:hidden"]

  /** What an absent, empty or given authentication key is filed under. */
  function AskedFor(authKey: Option<string>): string {
    if authKey.Some? && authKey.value != "" then authKey.value else "full"
  }

  function CacheKey(authKey: Option<string>): string {
    "portal-scalar:" + AskedFor(authKey) + ":" + "portal:hidden"
  }

  /** Two requests share a cache entry exactly when they are filed under the same name. */
  lemma CacheKeyIsInjective(k1: Option<string>, k2: Option<string>)
    ensures CacheKey(k1) == CacheKey(k2) <==> AskedFor(k1) == AskedFor(k2)
  {
    var a, b, tail := AskedFor(k1), AskedFor(k2), ":portal:hidden";
    assert CacheKey(k1) == "portal-scalar:" + (a + tail) && CacheKey(k2) == "portal-scalar:" + (b + tail);
    PrefixCancels("portal-scalar:", a + tail, b + tail);
    if a + tail == b + tail {
      assert |a| == |b| && a == (a + tail)[..|a|] && b == (b + tail)[..|b|];
    }
  }

  /** The uncached composition of the filters. */
  ghost function Portal(base: Document, authKey: Option<string>): Document {
    var filtered := if authKey.Some? && authKey.value != "" then FilteredByAuthKey(base, authKey.value) else base;
    FilteredByTags(filtered, HIDDEN_TAGS, authKey)
  }

  lemma EmptyKeyIsNoKey(base: Document)
    ensures Portal(base, Some("")) == Portal(base, None)
  {
  }

  /**
   What the portal shows: an operation that is not tagged `portal:hidden` and, for a reader with a key, whose
   security names the key.
   */
  lemma PortalShows(base: Document, authKey: Option<string>, path: string, verb: string, operation: Json)
    ensures Shows(Portal(base, authKey).paths, path, verb, operation) <==>
      && Shows(base.paths, path, verb, operation) && IsHttpMethod(verb) && operation.Obj?
      && !TaggedWith(operation.fields, "portal:hidden")
      && (authKey.Some? && authKey.value != "" ==> NamesKey(operation.fields, authKey.value))
  {
    var filtered := if authKey.Some? && authKey.value != "" then FilteredByAuthKey(base, authKey.value) else base;
    ShownWithoutTags(filtered, HIDDEN_TAGS, authKey, path, verb, operation);
    if authKey.Some? && authKey.value != "" {
      ShownUnderKey(base, authKey.value, path, verb, operation);
    }
    assert HIDDEN_TAGS[0] == "portal:hidden";
    assert forall tag :: tag in HIDDEN_TAGS <==> tag == "portal:hidden";
  }

  class SwaggerDocumentCacheService {
    var baseDocument: Option<Document>
    var filteredDocuments: map<string, Document>
    var taggedFilteredDocuments: map<string, Document>
    /** For every cache key in use, the request that filled it. */
    ghost var filledBy: map<string, Option<string>>

    /** Every entry is what the filters give for the current base and the request that filled it. */
    ghost predicate Valid()
      reads this
    {
      && filledBy.Keys == taggedFilteredDocuments.Keys
      && (baseDocument.None? ==> filteredDocuments == map[] && taggedFilteredDocuments == map[])
      && (baseDocument.Some? ==>
          && (forall k :: k in filteredDocuments ==> filteredDocuments[k] == FilteredByAuthKey(baseDocument.value, k))
          && (forall k :: k in taggedFilteredDocuments ==>
                CacheKey(filledBy[k]) == k && taggedFilteredDocuments[k] == Portal(baseDocument.value, filledBy[k])))
    }

    constructor ()
      ensures Valid() && baseDocument == None && filledBy == map[]
    {
      baseDocument, filteredDocuments, taggedFilteredDocuments, filledBy := None, map[], map[], map[];
    }

    method SetBaseDocument(document: Document)
      modifies this
      ensures Valid() && baseDocument == Some(document) && filledBy == map[]
      ensures filteredDocuments == map[] && taggedFilteredDocuments == map[]
    {
      baseDocument := Some(document);
      filteredDocuments, taggedFilteredDocuments := map[], map[];
      filledBy := map[];
    }

    method SetFilteredDocument(authKey: string, document: Document)
      requires Valid() && baseDocument.Some? && document == FilteredByAuthKey(baseDocument.value, authKey)
      modifies this`filteredDocuments
      ensures Valid()
    {
      filteredDocuments := filteredDocuments[authKey := document];
    }

    method SetTaggedFilteredDocument(cacheKey: string, document: Document, ghost authKey: Option<string>)
      requires Valid() && baseDocument.Some?
      requires cacheKey == CacheKey(authKey) && document == Portal(baseDocument.value, authKey)
      modifies this`taggedFilteredDocuments, this`filledBy
      ensures Valid() && filledBy == old(filledBy)[cacheKey := authKey]
    {
      taggedFilteredDocuments := taggedFilteredDocuments[cacheKey := document];
      filledBy := filledBy[cacheKey := authKey];
    }
  }

  datatype NotGenerated = NotGenerated

  class SwaggerService {
    const cache: SwaggerDocumentCacheService

    constructor (cache: SwaggerDocumentCacheService)
      ensures this.cache == cache
    {
      this.cache := cache;
    }

    method GetFilteredDocument(authKey: string) returns (r: Result<Document, NotGenerated>)
      requires cache.Valid()
      modifies cache`filteredDocuments
      ensures cache.Valid()
      ensures cache.baseDocument.None? ==> r.Err?
      ensures cache.baseDocument.Some? ==> r == Ok(FilteredByAuthKey(cache.baseDocument.value, authKey))
    {
      if cache.baseDocument.None? {
        return Err(NotGenerated);
      }
      if authKey in cache.filteredDocuments {
        return Ok(cache.filteredDocuments[authKey]);
      }
      var filtered := DocumentFilter.GetFilteredDocument(cache.baseDocument.value, authKey);
      cache.SetFilteredDocument(authKey, filtered);
      return Ok(filtered);
    }

    /**
     The answer is the uncached composition for the request that first used the cache key since the base
     document was last replaced.
     */
    method GetPortalScalarDocument(authKey: Option<string>) returns (r: Result<Document, NotGenerated>)
      requires cache.Valid()
      modifies cache`filteredDocuments, cache`taggedFilteredDocuments, cache`filledBy
      ensures cache.Valid()
      ensures cache.baseDocument.None? ==> r.Err? && cache.filledBy == old(cache.filledBy)
      ensures cache.baseDocument.Some? ==>
        && cache.filledBy == FillIfAbsent(old(cache.filledBy), authKey)
        && r == Ok(Portal(cache.baseDocument.value, cache.filledBy[CacheKey(authKey)]))
    {
      var cacheKey := CacheKey(authKey);
      if cacheKey in cache.taggedFilteredDocuments {
        return Ok(cache.taggedFilteredDocuments[cacheKey]);
      }
      var base: Result<Document, NotGenerated>;
      if authKey.Some? && authKey.value != "" {
        base := GetFilteredDocument(authKey.value);
      } else {
        base := if cache.baseDocument.Some? then Ok(cache.baseDocument.value) else Err(NotGenerated);
      }
      if base.Err? {
        return Err(base.error);
      }
      var filtered := GetDocumentWithoutTags(base.value, HIDDEN_TAGS, authKey);
      cache.SetTaggedFilteredDocument(cacheKey, filtered, authKey);
      return Ok(filtered);
    }
  }

  // ----- runs -----

  ghost function FillIfAbsent(filledBy: map<string, Option<string>>,
                              authKey: Option<string>): map<string, Option<string>> {
    if CacheKey(authKey) in filledBy then filledBy else filledBy[CacheKey(authKey) := authKey]
  }

  datatype Action = Replace(document: Document) | ReadPortal(authKey: Option<string>)

  datatype Snapshot = Snapshot(base: Option<Document>, filledBy: map<string, Option<string>>)

  /** What the contracts of SetBaseDocument and GetPortalScalarDocument say of one call. */
  ghost function Act(s: Snapshot, action: Action): Snapshot {
    match action
    case Replace(document) => Snapshot(Some(document), map[])
    case ReadPortal(authKey) => if s.base.None? then s else s.(filledBy := FillIfAbsent(s.filledBy, authKey))
  }

  ghost function Replay(actions: seq<Action>): Snapshot {
    if actions == [] then Snapshot(None, map[]) else Act(Replay(actions[..|actions| - 1]), actions[|actions| - 1])
  }

  /** The answer to a read after a run. */
  ghost function Served(actions: seq<Action>, authKey: Option<string>): Option<Document> {
    var s := Act(Replay(actions), ReadPortal(authKey));
    if s.base.Some? && CacheKey(authKey) in s.filledBy then Some(Portal(s.base.value, s.filledBy[CacheKey(authKey)]))
        else None
  }

  /** The latest base document of a run. */
  ghost function Current(actions: seq<Action>): Option<Document> {
    if actions == [] then None
    else
      var last := actions[|actions| - 1];
      if last.Replace? then Some(last.document) else Current(actions[..|actions| - 1])
  }

  predicate Keyed(authKey: Option<string>) {
    authKey.Some? && authKey.value != ""
  }

  /** The first read since the latest base document that is filed under the same name as `authKey`. */
  ghost function FirstAsker(actions: seq<Action>, authKey: Option<string>): Option<Option<string>> {
    if actions == [] then None
    else
      var init, last := actions[..|actions| - 1], actions[|actions| - 1];
      if last.Replace? then None
      else if FirstAsker(init, authKey).Some? then FirstAsker(init, authKey)
      else if Current(init).Some? && AskedFor(last.authKey) == AskedFor(authKey) then Some(last.authKey)
      else None
  }

  lemma {:induction false} FirstAskerFilled(actions: seq<Action>, authKey: Option<string>)
    ensures Replay(actions).base == Current(actions)
    ensures CacheKey(authKey) in Replay(actions).filledBy <==> FirstAsker(actions, authKey).Some?
    ensures FirstAsker(actions, authKey).Some? ==>
      && Replay(actions).filledBy[CacheKey(authKey)] == FirstAsker(actions, authKey).value
      && AskedFor(FirstAsker(actions, authKey).value) == AskedFor(authKey)
  {
    if actions != [] {
      FirstAskerFilled(actions[..|actions| - 1], authKey);
      var last := actions[|actions| - 1];
      if last.ReadPortal? {
        CacheKeyIsInjective(last.authKey, authKey);
      }
    }
  }

  /**
   What the cache serves after any run of base replacements and reads: the uncached composition on the
   current base, for whoever first asked under that name.
   */
  lemma FirstAskerDecides(actions: seq<Action>, authKey: Option<string>)
    requires Current(actions).Some?
    ensures var first := FirstAsker(actions, authKey);
      Served(actions, authKey) == Some(Portal(Current(actions).value, if first.Some? then first.value else authKey))
  {
    FirstAskerFilled(actions, authKey);
  }

  lemma SameRequestSamePortal(base: Document, k1: Option<string>, k2: Option<string>)
    requires AskedFor(k1) == AskedFor(k2) && Keyed(k1) == Keyed(k2)
    ensures Portal(base, k1) == Portal(base, k2)
  {
    if !Keyed(k1) {
      EmptyKeyIsNoKey(base);
    }
  }

  /**
   The cache is transparent for every key except the literal `full`, and for `full` and for readers
   without a key as long as the first of the two kinds to ask was of the reader's own kind.
   */
  lemma CacheIsTransparent(actions: seq<Action>, authKey: Option<string>)
    requires Current(actions).Some?
    requires AskedFor(authKey) == "full" && FirstAsker(actions, authKey).Some? ==>
      Keyed(FirstAsker(actions, authKey).value) == Keyed(authKey)
    ensures Served(actions, authKey) == Some(Portal(Current(actions).value, authKey))
  {
    FirstAskerFilled(actions, authKey);
    FirstAskerDecides(actions, authKey);
    var first := FirstAsker(actions, authKey);
    if first.Some? {
      SameRequestSamePortal(Current(actions).value, first.value, authKey);
    }
  }

  /** In the remaining case the reader is served the other kind's document: right only where the two coincide. */
  lemma OtherKindIsServed(actions: seq<Action>, authKey: Option<string>)
    requires Current(actions).Some? && FirstAsker(actions, authKey).Some?
    requires Keyed(FirstAsker(actions, authKey).value) != Keyed(authKey)
    ensures var base := Current(actions).value;
      Served(actions, authKey) == Some(Portal(base, authKey)) <==> Portal(base, Some("full")) == Portal(base, None)
  {
    FirstAskerFilled(actions, authKey);
    FirstAskerDecides(actions, authKey);
    var base, first := Current(actions).value, FirstAsker(actions, authKey).value;
    SameRequestSamePortal(base, if Keyed(first) then first else authKey, Some("full"));
    SameRequestSamePortal(base, if Keyed(first) then authKey else first, None);
  }

  const OPEN_ITEM: Fields := map["get" := Obj(map[])]

  /** A document with one operation that asks for no authentication and has no tags. */
  const OPEN_DOCUMENT := Document(map["/open" := Obj(OPEN_ITEM)], None, map[])

  lemma OpenOperationIsListed()
    ensures "/open" in Portal(OPEN_DOCUMENT, None).paths
  {
    var kept := KeptOperations(Obj(OPEN_ITEM), WithoutTags(HIDDEN_TAGS));
    assert HTTP_METHODS[0] == "get" && Keeps(WithoutTags(HIDDEN_TAGS), map[]);
    assert "get" in kept;
    assert "/open" in KeptPaths(OPEN_DOCUMENT.paths, WithoutTags(HIDDEN_TAGS));
  }

  lemma OpenOperationIsNotListedUnder(authKey: string)
    requires authKey != ""
    ensures "/open" !in Portal(OPEN_DOCUMENT, Some(authKey)).paths
  {
    assert KeptOperations(Obj(OPEN_ITEM), WithAuthKey(authKey)) == map[];
    assert "/open" !in FilteredByAuthKey(OPEN_DOCUMENT, authKey).paths;
  }

  /** Once `full` has been asked for, readers without a key do not see the open operation. */
  lemma FullIsAmbiguous()
    ensures Served([Replace(OPEN_DOCUMENT), ReadPortal(Some("full"))], None) != Some(Portal(OPEN_DOCUMENT, None))
  {
    var actions := [Replace(OPEN_DOCUMENT), ReadPortal(Some("full"))];
    assert actions[..1] == [Replace(OPEN_DOCUMENT)] && actions[..1][..0] == [];
    assert FirstAsker(actions[..1], None) == None && Current(actions[..1]) == Some(OPEN_DOCUMENT);
    FirstAskerDecides(actions, None);
    OpenOperationIsListed();
    OpenOperationIsNotListedUnder("full");
  }
}
