/**
 The three response interceptors, as they walk the object graph of a response: `visitedObjects` is filled
 while a loop per kind of container builds the result.
 */
module Interceptors {
  import opened SanitizeGraphs
  import opened SanitizeTrees
  import opened Strings

  /** What an interceptor looks at in a request; missing texts are empty strings. */
  datatype Request = Request(url: string, path: string, verb: string)

  predicate StartsWith(s: string, prefix: string) {
    prefix <= s
  }

  predicate EndsWith(s: string, suffix: string) {
    |suffix| <= |s| && s[|s| - |suffix|..] == suffix
  }

  /** The documentation, downloads, exports and the report request are answered untouched. */
  predicate Skipped(request: Request) {
    var path := if request.url != "" then request.url else request.path;
    || path == "/api" || StartsWith(path, "/api/docs") || StartsWith(path, "/api-json")
    || EndsWith(path, "/download") || EndsWith(path, "/export")
    || (path == "/reports" && request.verb == "POST")
  }

  /**
   Skipped whatever follows or precedes: documentation, downloads and exports. Of the reports, only the
   request is.
   */
  lemma SkippedRoutes(rest: string, verb: string)
    ensures Skipped(Request("/api/docs" + rest, "", verb)) && Skipped(Request("/api-json" + rest, "", verb))
    ensures Skipped(Request(rest + "/download", "", verb)) && Skipped(Request(rest + "/export", "", verb))
    ensures Skipped(Request("/api", "", verb)) && Skipped(Request("", "/api", verb))
    ensures Skipped(Request("/reports", "", verb)) <==> verb == "POST"
    ensures !Skipped(Request("", "", verb)) && !Skipped(Request("/api/users", "", verb))
  {
    var download, exported := rest + "/download", rest + "/export";
    assert download[|rest|..] == "/download" && exported[|rest|..] == "/export";
    assert "/api/docs" <= "/api/docs" + rest && "/api-json" <= "/api-json" + rest;
    assert "/reports"[1] == 'r' && "/api/docs"[1] == 'a' && "/api-json"[1] == 'a';
    assert "/reports"[|"/reports"| - 7..] == "reports";
    assert "/api/users"[5] == 'u' && "/api/docs"[5] == 'd' && "/api-json"[4] == '-' && "/api/users"[4] == '/';
    assert "/api/users"[9] == 's' && "/download"[8] == 'd' && "/export"[6] == 't';
  }

  method ShouldSkipResponseTransform(request: Request) returns (skip: bool)
    ensures skip == Skipped(request)
  {
    var path := if request.url != "" then request.url else request.path;
    if path == "" {
      return false;
    }
    if path == "/api" || path == "/api-json" || StartsWith(path, "/api/docs") || StartsWith(path, "/api-json") {
      return true;
    }
    if EndsWith(path, "/download") || EndsWith(path, "/export") {
      return true;
    }
    if path == "/reports" && request.verb == "POST" {
      return true;
    }
    return false;
  }

  /** The fused interceptor: sensitive fields and nested timestamps in one pass. */
  class ResponseSanitizationInterceptor {
    const sensitiveFields: set<string>
    const maxDepth: nat
    var visitedObjects: set<nat>

    constructor (fields: seq<string>, maxDepth: nat)
      ensures sensitiveFields == (set f | f in fields :: Lower(f)) && this.maxDepth == maxDepth
    {
      sensitiveFields := set f | f in fields :: Lower(f);
      this.maxDepth := maxDepth;
      visitedObjects := {};
    }

    ghost function DropRule(): Rule {
      Either(SensitiveRule(sensitiveFields), TimestampRule())
    }

    /** A response is sanitized from an empty visited set, unless its route is skipped or it is a stream. */
    method Intercept(request: Request, isStream: bool, h: Heap, data: Slot) returns (out: Out)
      modifies this`visitedObjects
      ensures out == if Skipped(request) || isStream then AsItIs(data)
                     else Sanitized(DropRule(), maxDepth, h, data, 0, true, false, {}).out
    {
      var skip := ShouldSkipResponseTransform(request);
      if skip || isStream {
        return AsItIs(data);
      }
      visitedObjects := {};
      out := Sanitize(h, data, 0, true, false);
    }

    method Sanitize(h: Heap, data: Slot, depth: nat, isRoot: bool, isArrayItemRoot: bool) returns (out: Out)
      modifies this`visitedObjects
      ensures Walked(out, visitedObjects)
           == Sanitized(DropRule(), maxDepth, h, data, depth, isRoot, isArrayItemRoot, old(visitedObjects))
      decreases Levels(maxDepth, depth), |CellsOf(h, data)| + 1
    {
      if depth > maxDepth || !IsContainer(h, data) {
        return AsItIs(data);
      }
      if data.ref in visitedObjects {
        return Original(data.ref);
      }
      visitedObjects := visitedObjects + {data.ref};
      var entries: seq<OutEntry>;
      var cells := h[data.ref].cells;
      match h[data.ref].kind {
        case ArrayKind => entries := WalkElements(h, cells, ArrayShape, isArrayItemRoot, depth, isRoot,
                                                  isArrayItemRoot);
        case MapKind => entries := WalkElements(h, cells, CollectionShape, false, depth, isRoot, isArrayItemRoot);
        case SetKind => entries := WalkElements(h, cells, CollectionShape, false, depth, isRoot, isArrayItemRoot);
        case RecordKind =>
          if CellsHaveArrayData(h, cells) && CellsHaveMeta(cells) {
            entries := WalkPage(h, cells, depth, isRoot, isArrayItemRoot);
          } else {
            entries := WalkRecord(h, cells, depth, isRoot, isArrayItemRoot);
          }
      }
      return Fresh(data.ref, h[data.ref].kind, entries);
    }

    /** The elements of an array, a Map or a Set; only those of an array can be roots. */
    method WalkElements(h: Heap, cells: seq<Cell>, ghost shape: Shape, elementIsRoot: bool, depth: nat, isRoot: bool,
                        isArrayItemRoot: bool)
      returns (entries: seq<OutEntry>)
      requires depth <= maxDepth
      requires shape.ArrayShape? || shape.CollectionShape?
      requires elementIsRoot == (shape.ArrayShape? && isArrayItemRoot)
      modifies this`visitedObjects
      ensures WalkedCells(entries, visitedObjects)
           == SanitizedCells(DropRule(), maxDepth, h, cells, shape, depth, isRoot, isArrayItemRoot,
                             old(visitedObjects))
      decreases Levels(maxDepth, depth), |cells|
    {
      entries := [];
      for k := 0 to |cells|
        invariant WalkedCells(entries, visitedObjects)
               == SanitizedCells(DropRule(), maxDepth, h, cells[..k], shape, depth, isRoot, isArrayItemRoot,
                                 old(visitedObjects))
      {
        var cell := cells[k];
        assert cells[..k + 1][..k] == cells[..k];
        var walked := Sanitize(h, cell.slot, depth + 1, elementIsRoot, false);
        entries := entries + [OutEntry(cell.key, walked)];
      }
      assert cells[..|cells|] == cells;
    }

    method WalkPage(h: Heap, cells: seq<Cell>, depth: nat, isRoot: bool, isArrayItemRoot: bool)
      returns (entries: seq<OutEntry>)
      requires depth <= maxDepth
      modifies this`visitedObjects
      ensures WalkedCells(entries, visitedObjects)
           == SanitizedCells(DropRule(), maxDepth, h, cells, PageShape, depth, isRoot, isArrayItemRoot,
                             old(visitedObjects))
      decreases Levels(maxDepth, depth), |cells|
    {
      entries := [];
      for k := 0 to |cells|
        invariant WalkedCells(entries, visitedObjects)
               == SanitizedCells(DropRule(), maxDepth, h, cells[..k], PageShape, depth, isRoot, isArrayItemRoot,
                                 old(visitedObjects))
      {
        var cell := cells[k];
        assert cells[..k + 1][..k] == cells[..k];
        if cell.key != DATA {
          entries := entries + [OutEntry(cell.key, AsItIs(cell.slot))];
          continue;
        }
        var walked := Sanitize(h, cell.slot, depth + 1, false, true);
        entries := entries + [OutEntry(cell.key, walked)];
      }
      assert cells[..|cells|] == cells;
    }

    method WalkRecord(h: Heap, cells: seq<Cell>, depth: nat, isRoot: bool, isArrayItemRoot: bool)
      returns (entries: seq<OutEntry>)
      requires depth <= maxDepth
      modifies this`visitedObjects
      ensures WalkedCells(entries, visitedObjects)
           == SanitizedCells(DropRule(), maxDepth, h, cells, RecordShape, depth, isRoot, isArrayItemRoot,
                             old(visitedObjects))
      decreases Levels(maxDepth, depth), |cells|
    {
      entries := [];
      for k := 0 to |cells|
        invariant WalkedCells(entries, visitedObjects)
               == SanitizedCells(DropRule(), maxDepth, h, cells[..k], RecordShape, depth, isRoot, isArrayItemRoot,
                                 old(visitedObjects))
      {
        var cell := cells[k];
        assert cells[..k + 1][..k] == cells[..k];
        if cell.key.Field? {
          if Lower(cell.key.name) in sensitiveFields {
            continue;
          }
          if !isRoot && cell.key.name in TIMESTAMP_FIELDS {
            continue;
          }
        }
        var walked := Sanitize(h, cell.slot, depth + 1, false, false);
        entries := entries + [OutEntry(cell.key, walked)];
      }
      assert cells[..|cells|] == cells;
    }
  }

  /** The first pass of the two-pass form. Its walk has no notion of a root: the two flags are ghost. */
  class RemoveSensitiveFieldsInterceptor {
    const sensitiveFields: set<string>
    const maxDepth: nat
    var visitedObjects: set<nat>

    constructor (fields: seq<string>, maxDepth: nat)
      ensures sensitiveFields == (set f | f in fields :: Lower(f)) && this.maxDepth == maxDepth
    {
      sensitiveFields := set f | f in fields :: Lower(f);
      this.maxDepth := maxDepth;
      visitedObjects := {};
    }

    ghost function DropRule(): Rule {
      SensitiveRule(sensitiveFields)
    }

    /** A response is sanitized from an empty visited set, unless its route is skipped or it is a stream. */
    method Intercept(request: Request, isStream: bool, h: Heap, data: Slot) returns (out: Out)
      modifies this`visitedObjects
      ensures out == if Skipped(request) || isStream then AsItIs(data)
                     else Sanitized(DropRule(), maxDepth, h, data, 0, true, false, {}).out
    {
      var path := if request.url != "" then request.url else request.path;
      if StartsWith(path, "/api/docs") || StartsWith(path, "/api-json") || path == "/api" {
        return AsItIs(data);
      }
      if EndsWith(path, "/download") || EndsWith(path, "/export") {
        return AsItIs(data);
      }
      if path == "/reports" && request.verb == "POST" {
        return AsItIs(data);
      }
      if isStream {
        return AsItIs(data);
      }
      visitedObjects := {};
      out := Sanitize(h, data, 0, true, false);
    }

    method Sanitize(h: Heap, data: Slot, depth: nat, ghost isRoot: bool, ghost isArrayItemRoot: bool) returns (out: Out)
      modifies this`visitedObjects
      ensures Walked(out, visitedObjects)
           == Sanitized(DropRule(), maxDepth, h, data, depth, isRoot, isArrayItemRoot, old(visitedObjects))
      decreases Levels(maxDepth, depth), |CellsOf(h, data)| + 1
    {
      if depth > maxDepth || !IsContainer(h, data) {
        return AsItIs(data);
      }
      if data.ref in visitedObjects {
        return Original(data.ref);
      }
      visitedObjects := visitedObjects + {data.ref};
      var entries: seq<OutEntry>;
      var cells := h[data.ref].cells;
      match h[data.ref].kind {
        case ArrayKind => entries := WalkElements(h, cells, ArrayShape, depth, isRoot, isArrayItemRoot);
        case MapKind => entries := WalkElements(h, cells, CollectionShape, depth, isRoot, isArrayItemRoot);
        case SetKind => entries := WalkElements(h, cells, CollectionShape, depth, isRoot, isArrayItemRoot);
        case RecordKind =>
          if CellsHaveArrayData(h, cells) && CellsHaveMeta(cells) {
            entries := WalkPage(h, cells, depth, isRoot, isArrayItemRoot);
          } else {
            entries := WalkRecord(h, cells, depth, isRoot, isArrayItemRoot);
          }
      }
      return Fresh(data.ref, h[data.ref].kind, entries);
    }

    /** The elements of an array, a Map or a Set. */
    method WalkElements(h: Heap, cells: seq<Cell>, ghost shape: Shape, depth: nat, ghost isRoot: bool,
                        ghost isArrayItemRoot: bool)
      returns (entries: seq<OutEntry>)
      requires depth <= maxDepth
      requires shape.ArrayShape? || shape.CollectionShape?
      modifies this`visitedObjects
      ensures WalkedCells(entries, visitedObjects)
           == SanitizedCells(DropRule(), maxDepth, h, cells, shape, depth, isRoot, isArrayItemRoot,
                             old(visitedObjects))
      decreases Levels(maxDepth, depth), |cells|
    {
      entries := [];
      for k := 0 to |cells|
        invariant WalkedCells(entries, visitedObjects)
               == SanitizedCells(DropRule(), maxDepth, h, cells[..k], shape, depth, isRoot, isArrayItemRoot,
                                 old(visitedObjects))
      {
        var cell := cells[k];
        assert cells[..k + 1][..k] == cells[..k];
        var walked := Sanitize(h, cell.slot, depth + 1, shape.ArrayShape? && isArrayItemRoot, false);
        entries := entries + [OutEntry(cell.key, walked)];
      }
      assert cells[..|cells|] == cells;
    }

    method WalkPage(h: Heap, cells: seq<Cell>, depth: nat, ghost isRoot: bool, ghost isArrayItemRoot: bool)
      returns (entries: seq<OutEntry>)
      requires depth <= maxDepth
      modifies this`visitedObjects
      ensures WalkedCells(entries, visitedObjects)
           == SanitizedCells(DropRule(), maxDepth, h, cells, PageShape, depth, isRoot, isArrayItemRoot,
                             old(visitedObjects))
      decreases Levels(maxDepth, depth), |cells|
    {
      entries := [];
      for k := 0 to |cells|
        invariant WalkedCells(entries, visitedObjects)
               == SanitizedCells(DropRule(), maxDepth, h, cells[..k], PageShape, depth, isRoot, isArrayItemRoot,
                                 old(visitedObjects))
      {
        var cell := cells[k];
        assert cells[..k + 1][..k] == cells[..k];
        if cell.key != DATA {
          entries := entries + [OutEntry(cell.key, AsItIs(cell.slot))];
          continue;
        }
        var walked := Sanitize(h, cell.slot, depth + 1, false, true);
        entries := entries + [OutEntry(cell.key, walked)];
      }
      assert cells[..|cells|] == cells;
    }

    method WalkRecord(h: Heap, cells: seq<Cell>, depth: nat, ghost isRoot: bool, ghost isArrayItemRoot: bool)
      returns (entries: seq<OutEntry>)
      requires depth <= maxDepth
      modifies this`visitedObjects
      ensures WalkedCells(entries, visitedObjects)
           == SanitizedCells(DropRule(), maxDepth, h, cells, RecordShape, depth, isRoot, isArrayItemRoot,
                             old(visitedObjects))
      decreases Levels(maxDepth, depth), |cells|
    {
      entries := [];
      for k := 0 to |cells|
        invariant WalkedCells(entries, visitedObjects)
               == SanitizedCells(DropRule(), maxDepth, h, cells[..k], RecordShape, depth, isRoot, isArrayItemRoot,
                                 old(visitedObjects))
      {
        var cell := cells[k];
        assert cells[..k + 1][..k] == cells[..k];
        if cell.key.Field? && Lower(cell.key.name) in sensitiveFields {
          continue;
        }
        var walked := Sanitize(h, cell.slot, depth + 1, false, false);
        entries := entries + [OutEntry(cell.key, walked)];
      }
      assert cells[..|cells|] == cells;
    }
  }

  /** The second pass of the two-pass form. */
  class RemoveNestedTimestampsInterceptor {
    const maxDepth: nat
    var visitedObjects: set<nat>

    constructor (maxDepth: nat)
      ensures this.maxDepth == maxDepth
    {
      this.maxDepth := maxDepth;
      visitedObjects := {};
    }

    ghost function DropRule(): Rule {
      TimestampRule()
    }

    /** A response is sanitized from an empty visited set, unless its route is skipped or it is a stream. */
    method Intercept(request: Request, isStream: bool, h: Heap, data: Slot) returns (out: Out)
      modifies this`visitedObjects
      ensures out == if Skipped(request) || isStream then AsItIs(data)
                     else Sanitized(DropRule(), maxDepth, h, data, 0, true, false, {}).out
    {
      var path := if request.url != "" then request.url else request.path;
      if StartsWith(path, "/api/docs") || StartsWith(path, "/api-json") || path == "/api" {
        return AsItIs(data);
      }
      if EndsWith(path, "/download") || EndsWith(path, "/export") {
        return AsItIs(data);
      }
      if path == "/reports" && request.verb == "POST" {
        return AsItIs(data);
      }
      if isStream {
        return AsItIs(data);
      }
      visitedObjects := {};
      out := RemoveNestedTimestamps(h, data, 0, true, false);
    }

    method RemoveNestedTimestamps(h: Heap, data: Slot, depth: nat, isRoot: bool, isArrayItemRoot: bool)
      returns (out: Out)
      modifies this`visitedObjects
      ensures Walked(out, visitedObjects)
           == Sanitized(DropRule(), maxDepth, h, data, depth, isRoot, isArrayItemRoot, old(visitedObjects))
      decreases Levels(maxDepth, depth), |CellsOf(h, data)| + 1
    {
      if depth > maxDepth || !IsContainer(h, data) {
        return AsItIs(data);
      }
      if data.ref in visitedObjects {
        return Original(data.ref);
      }
      visitedObjects := visitedObjects + {data.ref};
      var entries: seq<OutEntry>;
      var cells := h[data.ref].cells;
      match h[data.ref].kind {
        case ArrayKind => entries := WalkElements(h, cells, ArrayShape, isArrayItemRoot, depth, isRoot,
                                                  isArrayItemRoot);
        case MapKind => entries := WalkElements(h, cells, CollectionShape, false, depth, isRoot, isArrayItemRoot);
        case SetKind => entries := WalkElements(h, cells, CollectionShape, false, depth, isRoot, isArrayItemRoot);
        case RecordKind =>
          if CellsHaveArrayData(h, cells) && CellsHaveMeta(cells) {
            entries := WalkPage(h, cells, depth, isRoot, isArrayItemRoot);
          } else {
            entries := WalkRecord(h, cells, depth, isRoot, isArrayItemRoot);
          }
      }
      return Fresh(data.ref, h[data.ref].kind, entries);
    }

    /** The elements of an array, a Map or a Set; only those of an array can be roots. */
    method WalkElements(h: Heap, cells: seq<Cell>, ghost shape: Shape, elementIsRoot: bool, depth: nat, isRoot: bool,
                        isArrayItemRoot: bool)
      returns (entries: seq<OutEntry>)
      requires depth <= maxDepth
      requires shape.ArrayShape? || shape.CollectionShape?
      requires elementIsRoot == (shape.ArrayShape? && isArrayItemRoot)
      modifies this`visitedObjects
      ensures WalkedCells(entries, visitedObjects)
           == SanitizedCells(DropRule(), maxDepth, h, cells, shape, depth, isRoot, isArrayItemRoot,
                             old(visitedObjects))
      decreases Levels(maxDepth, depth), |cells|
    {
      entries := [];
      for k := 0 to |cells|
        invariant WalkedCells(entries, visitedObjects)
               == SanitizedCells(DropRule(), maxDepth, h, cells[..k], shape, depth, isRoot, isArrayItemRoot,
                                 old(visitedObjects))
      {
        var cell := cells[k];
        assert cells[..k + 1][..k] == cells[..k];
        var walked := RemoveNestedTimestamps(h, cell.slot, depth + 1, elementIsRoot, false);
        entries := entries + [OutEntry(cell.key, walked)];
      }
      assert cells[..|cells|] == cells;
    }

    method WalkPage(h: Heap, cells: seq<Cell>, depth: nat, isRoot: bool, isArrayItemRoot: bool)
      returns (entries: seq<OutEntry>)
      requires depth <= maxDepth
      modifies this`visitedObjects
      ensures WalkedCells(entries, visitedObjects)
           == SanitizedCells(DropRule(), maxDepth, h, cells, PageShape, depth, isRoot, isArrayItemRoot,
                             old(visitedObjects))
      decreases Levels(maxDepth, depth), |cells|
    {
      entries := [];
      for k := 0 to |cells|
        invariant WalkedCells(entries, visitedObjects)
               == SanitizedCells(DropRule(), maxDepth, h, cells[..k], PageShape, depth, isRoot, isArrayItemRoot,
                                 old(visitedObjects))
      {
        var cell := cells[k];
        assert cells[..k + 1][..k] == cells[..k];
        if cell.key != DATA {
          entries := entries + [OutEntry(cell.key, AsItIs(cell.slot))];
          continue;
        }
        var walked := RemoveNestedTimestamps(h, cell.slot, depth + 1, false, true);
        entries := entries + [OutEntry(cell.key, walked)];
      }
      assert cells[..|cells|] == cells;
    }

    method WalkRecord(h: Heap, cells: seq<Cell>, depth: nat, isRoot: bool, isArrayItemRoot: bool)
      returns (entries: seq<OutEntry>)
      requires depth <= maxDepth
      modifies this`visitedObjects
      ensures WalkedCells(entries, visitedObjects)
           == SanitizedCells(DropRule(), maxDepth, h, cells, RecordShape, depth, isRoot, isArrayItemRoot,
                             old(visitedObjects))
      decreases Levels(maxDepth, depth), |cells|
    {
      entries := [];
      for k := 0 to |cells|
        invariant WalkedCells(entries, visitedObjects)
               == SanitizedCells(DropRule(), maxDepth, h, cells[..k], RecordShape, depth, isRoot, isArrayItemRoot,
                                 old(visitedObjects))
      {
        var cell := cells[k];
        assert cells[..k + 1][..k] == cells[..k];
        if cell.key.Field? && !isRoot && cell.key.name in TIMESTAMP_FIELDS {
          continue;
        }
        var walked := RemoveNestedTimestamps(h, cell.slot, depth + 1, false, false);
        entries := entries + [OutEntry(cell.key, walked)];
      }
      assert cells[..|cells|] == cells;
    }
  }
}
