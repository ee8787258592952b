/** Parsing of `module:action` permissions and the two ways to decide whether a requirement is met. */
module PermissionMatching {
  import opened Wrappers

  datatype ParsedPermission = ParsedPermission(area: string, action: string)

  /** JavaScript's s.split(':'). */
  function Split(s: string): (parts: seq<string>)
    ensures |parts| >= 1
  {
    if s == "" then [""]
    else
      var rest := Split(s[1..]);
      if s[0] == ':' then [""] + rest else [[s[0]] + rest[0]] + rest[1..]
  }

  ghost function Join(parts: seq<string>): string
    requires |parts| >= 1
  {
    if |parts| == 1 then parts[0] else parts[0] + ":" + Join(parts[1..])
  }

  ghost predicate ColonFree(parts: seq<string>) {
    forall i :: 0 <= i < |parts| ==> ':' !in parts[i]
  }

  lemma {:induction false} JoinUndoesSplit(s: string)
    ensures Join(Split(s)) == s && ColonFree(Split(s))
  {
    if s != "" {
      var rest := Split(s[1..]);
      JoinUndoesSplit(s[1..]);
      assert s == [s[0]] + s[1..];
      if s[0] == ':' {
        assert Split(s)[1..] == rest;
      } else {
        assert Split(s)[1..] == rest[1..];
        if |rest| > 1 {
          assert [s[0]] + (rest[0] + ":" + Join(rest[1..])) == ([s[0]] + rest[0]) + ":" + Join(rest[1..]);
        }
      }
    }
  }

  lemma {:induction false} SplitUndoesJoin(parts: seq<string>)
    requires |parts| >= 1 && ColonFree(parts)
    ensures Split(Join(parts)) == parts
    decreases |parts|, |parts[0]|
  {
    var s := Join(parts);
    if parts[0] == "" {
      if |parts| > 1 {
        SplitUndoesJoin(parts[1..]);
        assert s[1..] == Join(parts[1..]);
      }
    } else {
      var shorter := [parts[0][1..]] + parts[1..];
      SplitUndoesJoin(shorter);
      assert shorter[1..] == parts[1..];
      assert s[1..] == Join(shorter) && s[0] == parts[0][0];
      assert [s[0]] + shorter[0] == parts[0] && parts == [parts[0]] + parts[1..];
    }
  }

  function ParsePermission(permission: string): Option<ParsedPermission> {
    var parts := Split(permission);
    if |parts| != 2 then None else Some(ParsedPermission(parts[0], parts[1]))
  }

  ghost predicate WellFormed(p: ParsedPermission) {
    ':' !in p.area && ':' !in p.action
  }

  /** A string parses exactly when it has one colon, and then it is rebuilt from what it parsed to. */
  lemma ParsesIffOneColon(s: string, p: ParsedPermission)
    ensures ParsePermission(s) == Some(p) <==> WellFormed(p) && s == p.area + ":" + p.action
  {
    JoinUndoesSplit(s);
    var parts := [p.area, p.action];
    assert parts[1..] == [p.action];
    if ParsePermission(s) == Some(p) {
      assert Split(s) == parts;
    }
    if WellFormed(p) {
      SplitUndoesJoin(parts);
    }
  }

  predicate MatchesPermission(required: ParsedPermission, userPerm: string) {
    match ParsePermission(userPerm)
    case None => false
    case Some(user) =>
      || (user.area == required.area && user.action == required.action)
      || (user.area == "*" && user.action == "*")
      || (user.area == required.area && user.action == "*")
      || (user.area == required.area && user.action == "write"
          && (required.action == "create" || required.action == "update"))
  }

  predicate CheckPermissionHierarchy(userPermissions: seq<string>, requiredPermission: string) {
    if requiredPermission in userPermissions then true
    else
      match ParsePermission(requiredPermission)
      case None => false
      case Some(required) =>
        || "*:*" in userPermissions
        || required.area + ":*" in userPermissions
        || ((required.action == "create" || required.action == "update") && required.area + ":write" in userPermissions)
  }

  /** A held permission matches exactly when it is one of the strings the fast check looks up. */
  lemma MatchesExactlyTheLookedUpNames(required: ParsedPermission, held: string)
    requires WellFormed(required)
    ensures MatchesPermission(required, held) <==>
      || held == required.area + ":" + required.action
      || held == "*:*"
      || held == required.area + ":*"
      || (held == required.area + ":write" && (required.action == "create" || required.action == "update"))
  {
    ParsesIffOneColon(held, required);
    ParsesIffOneColon(held, ParsedPermission("*", "*"));
    ParsesIffOneColon(held, ParsedPermission(required.area, "*"));
    ParsesIffOneColon(held, ParsedPermission(required.area, "write"));
    assert "*" + ":" + "*" == "*:*";
    assert required.area + ":" + "*" == required.area + ":*";
    assert required.area + ":" + "write" == required.area + ":write";
  }

  /**
   The fast check is the slow matcher run over every held permission. A requirement that does not parse
   is met only by being held literally.
   */
  lemma FastCheckIsSlowMatcher(held: seq<string>, requirement: string)
    ensures CheckPermissionHierarchy(held, requirement) <==>
      match ParsePermission(requirement)
      case Some(required) => exists p :: p in held && MatchesPermission(required, p)
      case None => requirement in held
  {
    match ParsePermission(requirement)
    case None =>
    case Some(required) =>
      ParsesIffOneColon(requirement, required);
      forall p ensures MatchesPermission(required, p) <==>
          || p == requirement || p == "*:*" || p == required.area + ":*"
          || (p == required.area + ":write" && (required.action == "create" || required.action == "update"))
      {
        MatchesExactlyTheLookedUpNames(required, p);
      }
  }
}
