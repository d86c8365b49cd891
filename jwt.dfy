/**
 * Reading claims out of the access token without verifying it: the payload segment
 * is base64-decoded with `atob` and parsed with `JSON.parse`, both of which stay
 * uninterpreted (parameters), and the user id and role are picked by `||` fallback
 * chains over several claim names.
 */
module Jwt {

  import opened Wrappers
  import opened Js
  import opened JsStrings

  /**
   * `token.split('.')[1]` is `undefined` when the token has no `.`, and `atob`
   * coerces it to this string.
   */
  const MissingSegment := "undefined"

  /** The text `atob` receives: the second `.`-separated segment of the token. */
  function PayloadSegment(token: string): (seg: string)
    ensures '.' !in token ==> seg == MissingSegment
  {
    var parts := Split(token, '.');
    SplitHasSecond(token, '.');
    if |parts| >= 2 then parts[1] else MissingSegment
  }

  /**
   * With a `.` in the token, the segment decoded is the text between the first `.`
   * and the next `.` (or the end): the first and the third segment are never read.
   */
  lemma PayloadSegmentBetweenDots(token: string)
    requires '.' in token
    ensures exists i :: (0 <= i < |token| && token[i] == '.' && '.' !in token[..i] &&
                         var seg := PayloadSegment(token);
                         seg <= token[i + 1..] && '.' !in seg &&
                         (i + 1 + |seg| == |token| || token[i + 1 + |seg|] == '.'))
  {
    var parts := Split(token, '.');
    SplitHasSecond(token, '.');
    SplitSecondPiece(token, '.');
    var i :| 0 <= i < |token| && token[i] == '.' && '.' !in token[..i] &&
             parts[0] == token[..i] && parts[1..] == Split(token[i + 1..], '.');
    var rest := token[i + 1..];
    SplitFirstPiece(rest, '.');
    var seg := PayloadSegment(token);
    assert seg == parts[1] == Split(rest, '.')[0];
    assert seg <= rest && '.' !in seg;
    assert |seg| < |rest| ==> rest[|seg|] == token[i + 1 + |seg|];
    assert i + 1 + |seg| == |token| || token[i + 1 + |seg|] == '.';
  }

  /**
   * `parseJwt(token)`: `null` for a falsy token, and `null` instead of an exception
   * when decoding or parsing fails. `atob` is assumed to reject `"undefined"`, whose
   * nine characters are not a whole number of base64 quanta.
   */
  function ParseJwt(token: Option<string>, atob: string -> Option<string>, jsonParse: string -> Option<JsValue>)
    : (payload: JsValue)
    requires atob(MissingSegment).None?
    ensures token.None? || token.value == "" ==> payload == Null
    ensures token.Some? && '.' !in token.value ==> payload == Null
    ensures payload != Null ==>
              token.Some? && '.' in token.value &&
              var decoded := atob(PayloadSegment(token.value));
              decoded.Some? && jsonParse(decoded.value) == Some(payload)
    ensures token.Some? && token.value != "" &&
            atob(PayloadSegment(token.value)).Some? &&
            jsonParse(atob(PayloadSegment(token.value)).value).Some? ==>
              payload == jsonParse(atob(PayloadSegment(token.value)).value).value
  {
    if token.None? || token.value == "" then Null
    else
      match atob(PayloadSegment(token.value))
      case None => Null
      case Some(decoded) =>
        match jsonParse(decoded)
        case None => Null
        case Some(v) => v
  }

  /** The claims `getUserIdFromToken` tries, in order. */
  function UserIdClaims(payload: JsValue): (claims: seq<JsValue>)
    ensures |claims| == 3
    ensures claims[0] == Get(payload, "id") && claims[1] == Get(payload, "userId") && claims[2] == Get(payload, "sub")
  {
    [Get(payload, "id"), Get(payload, "userId"), Get(payload, "sub")]
  }

  /** `getUserIdFromToken(token)`: `payload?.id || payload?.userId || payload?.sub || null`. */
  function GetUserIdFromToken(token: Option<string>, atob: string -> Option<string>, jsonParse: string -> Option<JsValue>)
    : (uid: JsValue)
    requires atob(MissingSegment).None?
    ensures FirstTruthy(UserIdClaims(ParseJwt(token, atob, jsonParse)), Null, uid)
    ensures Truthy(uid) || uid == Null
  {
    var payload := ParseJwt(token, atob, jsonParse);
    var uid := Or(Or(Or(Get(payload, "id"), Get(payload, "userId")), Get(payload, "sub")), Null);
    var claims := UserIdClaims(payload);
    OrChainIsFirstTruthy(claims, Null);
    assert OrChain(claims[2..], Null) == Or(claims[2], Null);
    assert OrChain(claims[1..], Null) == Or(claims[1], OrChain(claims[2..], Null));
    assert uid == OrChain(claims, Null);
    uid
  }

  /**
   * The role carried by an array claim (`roles`, `authorities`): only element `[0]`
   * is read, taken as is when it is a string and through its `authority` otherwise.
   * A value that is not an array gives `null`.
   */
  function FirstListEntry(v: JsValue): (r: JsValue)
    ensures !v.Arr? ==> r == Null
    ensures v.Arr? && |v.elems| == 0 ==> r == Undefined
    ensures v.Arr? && |v.elems| > 0 && v.elems[0].Str? ==> r == v.elems[0]
    ensures v.Arr? && |v.elems| > 0 && !v.elems[0].Str? ==> r == Get(v.elems[0], "authority")
    ensures Truthy(r) ==>
              v.Arr? && |v.elems| > 0 &&
              ((v.elems[0].Str? && r == v.elems[0]) || (v.elems[0].Obj? && r == Get(v.elems[0], "authority")))
  {
    match v
    case Arr(es) =>
      var first := if |es| > 0 then es[0] else Undefined;
      if first.Str? then first else Get(first, "authority")
    case _ => Null
  }

  /** The claims `getRoleFromToken` tries, in order. */
  function RoleClaims(payload: JsValue): (claims: seq<JsValue>)
    ensures |claims| == 5
    ensures claims[0] == Get(payload, "role") && claims[1] == Get(payload, "rol")
    ensures claims[2] == FirstListEntry(Get(payload, "roles")) && claims[3] == FirstListEntry(Get(payload, "authorities"))
    ensures claims[4] == Get(payload, "authority")
  {
    [Get(payload, "role"), Get(payload, "rol"), FirstListEntry(Get(payload, "roles")),
     FirstListEntry(Get(payload, "authorities")), Get(payload, "authority")]
  }

  /** `getRoleFromToken(token)`: `''` without a payload, otherwise the first truthy role claim or `''`. */
  function GetRoleFromToken(token: Option<string>, atob: string -> Option<string>, jsonParse: string -> Option<JsValue>)
    : (role: JsValue)
    requires atob(MissingSegment).None?
    ensures !Truthy(ParseJwt(token, atob, jsonParse)) ==> role == Str("")
    ensures Truthy(ParseJwt(token, atob, jsonParse)) ==>
              FirstTruthy(RoleClaims(ParseJwt(token, atob, jsonParse)), Str(""), role)
  {
    var payload := ParseJwt(token, atob, jsonParse);
    if !Truthy(payload) then Str("")
    else
      var role :=
        Or(Or(Or(Or(Or(Get(payload, "role"), Get(payload, "rol")),
                    FirstListEntry(Get(payload, "roles"))),
                 FirstListEntry(Get(payload, "authorities"))),
              Get(payload, "authority")),
           Str(""));
      var claims := RoleClaims(payload);
      OrChainIsFirstTruthy(claims, Str(""));
      assert OrChain(claims[4..], Str("")) == Or(claims[4], Str(""));
      assert OrChain(claims[3..], Str("")) == Or(claims[3], OrChain(claims[4..], Str("")));
      assert OrChain(claims[2..], Str("")) == Or(claims[2], OrChain(claims[3..], Str("")));
      assert OrChain(claims[1..], Str("")) == Or(claims[1], OrChain(claims[2..], Str("")));
      assert role == OrChain(claims, Str(""));
      role
  }

  /** The role is `''` or one of the truthy claim values; nothing else can come out. */
  lemma RoleIsClaimOrEmpty(token: Option<string>, atob: string -> Option<string>, jsonParse: string -> Option<JsValue>)
    requires atob(MissingSegment).None?
    ensures var role := GetRoleFromToken(token, atob, jsonParse);
            role == Str("") || (Truthy(role) && role in RoleClaims(ParseJwt(token, atob, jsonParse)))
  {
  }

  /** A claim that is truthy wins over every claim after it. */
  lemma {:induction false} TruthyHeadWins(candidates: seq<JsValue>, fallback: JsValue, r: JsValue, k: nat)
    requires k < |candidates| && Truthy(candidates[k])
    requires forall j :: 0 <= j < k ==> !Truthy(candidates[j])
    requires FirstTruthy(candidates, fallback, r)
    ensures r == candidates[k]
  {
    var i :| 0 <= i < |candidates| && candidates[i] == r && Truthy(r) &&
             forall j :: 0 <= j < i ==> !Truthy(candidates[j]);
    assert !(i < k) && !(k < i);
  }

  /** A truthy `role` claim always wins; a falsy `id` claim falls through to `userId`. */
  lemma ClaimPriority(token: Option<string>, atob: string -> Option<string>, jsonParse: string -> Option<JsValue>)
    requires atob(MissingSegment).None?
    ensures var payload := ParseJwt(token, atob, jsonParse);
            Truthy(payload) && Truthy(Get(payload, "role")) ==>
              GetRoleFromToken(token, atob, jsonParse) == Get(payload, "role")
    ensures var payload := ParseJwt(token, atob, jsonParse);
            !Truthy(Get(payload, "id")) && Truthy(Get(payload, "userId")) ==>
              GetUserIdFromToken(token, atob, jsonParse) == Get(payload, "userId")
  {
    var payload := ParseJwt(token, atob, jsonParse);
    if Truthy(payload) && Truthy(Get(payload, "role")) {
      TruthyHeadWins(RoleClaims(payload), Str(""), GetRoleFromToken(token, atob, jsonParse), 0);
    }
    if !Truthy(Get(payload, "id")) && Truthy(Get(payload, "userId")) {
      TruthyHeadWins(UserIdClaims(payload), Null, GetUserIdFromToken(token, atob, jsonParse), 1);
    }
  }
}
