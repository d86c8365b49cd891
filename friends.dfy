/**
 * The community page: the search over suggested users, answering pending friend
 * requests, loading both lists for the signed-in user, and the name shown per user.
 */
module Friends {

  import opened Wrappers
  import opened Js
  import opened JsStrings
  import opened Http
  import opened Seqs
  import opened Browser
  import Jwt

  /** A user as the backend lists it; only the fields the page reads. */
  datatype User = User(id: Primitive, nombres: Text, name: Text, apellidos: Text, username: Text)

  /** The call an answer to a friend request makes: `(userId, friendId)`. */
  datatype FriendCall = AcceptCall(userId: JsValue, friendId: Primitive) | RejectCall(userId: JsValue, friendId: Primitive)

  /** The text of a `Text` field, with `null`, `undefined` and `""` all read as `""`. */
  function TextOrEmpty(t: Text): string {
    if t.Str? then t.s else ""
  }

  /** `` `${u.nombres || u.name || ''} ${u.apellidos || ''}` ``, the full name the search looks in. */
  function FullNameKey(u: User): (key: string)
    ensures key == TextOrEmpty(if Truthy(u.nombres) then u.nombres else u.name) + " " + TextOrEmpty(u.apellidos)
  {
    ToJsString(Or(Or(u.nombres, u.name), Str(""))) + " " + ToJsString(Or(u.apellidos, Str("")))
  }

  /** `u.username || ''`, the second text the search looks in. */
  function UsernameKey(u: User): (key: string)
    ensures key == TextOrEmpty(u.username)
  {
    ToJsString(Or(u.username, Str("")))
  }

  /** The search predicate: the lower-cased query occurs in the lower-cased full name or username. */
  predicate Matches(search: string, u: User)
    ensures search == "" ==> Matches(search, u)
    ensures Matches(search, u) ==> |search| <= |FullNameKey(u)| || |search| <= |UsernameKey(u)|
  {
    IncludesEmpty(Lower(FullNameKey(u)));
    Includes(Lower(FullNameKey(u)), Lower(search)) || Includes(Lower(UsernameKey(u)), Lower(search))
  }

  /** A user matches exactly when the lower-cased query occurs at some position of one of the two texts. */
  lemma MatchesIffOccurs(search: string, u: User)
    ensures Matches(search, u) <==>
              Occurs(Lower(FullNameKey(u)), Lower(search)) || Occurs(Lower(UsernameKey(u)), Lower(search))
  {
    IncludesIffOccurs(Lower(FullNameKey(u)), Lower(search));
    IncludesIffOccurs(Lower(UsernameKey(u)), Lower(search));
  }

  /**
   * `filteredRecommendations`: the matching suggestions, in their order, each as often
   * as it is suggested; an empty query keeps them all.
   */
  function FilteredRecommendations(recommendations: seq<User>, search: string): (shown: seq<User>)
    ensures IsSubsequence(shown, recommendations)
    ensures forall u :: u in shown <==> u in recommendations && Matches(search, u)
    ensures forall u :: multiset(shown)[u] == if Matches(search, u) then multiset(recommendations)[u] else 0
    ensures search == "" ==> shown == recommendations
  {
    var keep := u => Matches(search, u);
    var shown := Filter(recommendations, keep);
    FilterIsSubsequence(recommendations, keep);
    forall u ensures (u in shown <==> u in recommendations && Matches(search, u)) &&
                     multiset(shown)[u] == if Matches(search, u) then multiset(recommendations)[u] else 0 {
      FilterMembership(recommendations, keep, u);
      FilterCount(recommendations, keep, u);
    }
    EmptySearchKeepsAll(recommendations, search, keep);
    shown
  }

  lemma EmptySearchKeepsAll(recommendations: seq<User>, search: string, keep: User -> bool)
    requires forall u :: keep(u) == Matches(search, u)
    ensures search == "" ==> Filter(recommendations, keep) == recommendations
  {
    if search == "" {
      forall i | 0 <= i < |recommendations| ensures keep(recommendations[i]) {
        IncludesEmpty(Lower(FullNameKey(recommendations[i])));
      }
      FilterKeepsAll(recommendations, keep);
    }
  }

  /** `prev.filter((u) => u.id !== friendId)`: every request but those from `friendId`, in order. */
  function WithoutSender(pending: seq<User>, friendId: Primitive): (rest: seq<User>)
    ensures IsSubsequence(rest, pending)
    ensures forall u :: u in rest ==> u.id != friendId
    ensures forall u :: u in pending && u.id != friendId ==> u in rest
    ensures forall u: User :: u.id != friendId ==> multiset(rest)[u] == multiset(pending)[u]
  {
    var keep := (u: User) => u.id != friendId;
    var rest := Filter(pending, keep);
    FilterIsSubsequence(pending, keep);
    forall u ensures (u in rest <==> u in pending && keep(u)) &&
                     multiset(rest)[u] == if keep(u) then multiset(pending)[u] else 0 {
      FilterMembership(pending, keep, u);
      FilterCount(pending, keep, u);
    }
    rest
  }

  /**
   * The name a list entry shows: `nombres apellidos` when `nombres` is truthy (a
   * missing surname prints as `undefined`), otherwise `name` as it is.
   */
  function DisplayName(u: User): (shown: JsValue)
    ensures Truthy(u.nombres) ==> shown == Str(u.nombres.s + " " + ToJsString(u.apellidos))
    ensures !Truthy(u.nombres) ==> shown == u.name
  {
    if Truthy(u.nombres) then Str(ToJsString(u.nombres) + " " + ToJsString(u.apellidos)) else u.name
  }

  class FriendsPage {
    var tab: int
    var search: string
    var recommendations: seq<User>
    var pending: seq<User>
    var userId: JsValue
    const window: Window

    constructor (window: Window)
      ensures tab == 0 && search == "" && recommendations == [] && pending == [] && userId == Null
      ensures this.window == window
    {
      tab := 0;
      search := "";
      recommendations := [];
      pending := [];
      userId := Null;
      this.window := window;
    }

    /**
     * The effect run on mount. Without a truthy token, or when the token names no user,
     * nothing is set and nothing is fetched. Otherwise the user id is set and both lists
     * are fetched together for it (`fetched` is how the combined call settles): a success
     * replaces both lists (`null` as empty), a failure leaves them.
     */
    method Load(atob: string -> Option<string>, jsonParse: string -> Option<JsValue>,
                fetched: Outcome<(Option<seq<User>>, Option<seq<User>>)>)
      returns (fetchedFor: Option<JsValue>)
      requires atob(Jwt.MissingSegment).None?
      modifies this
      ensures var token := GetItem(window.storage, AccessTokenKey);
              var uid := Jwt.GetUserIdFromToken(token, atob, jsonParse);
              if TruthyItem(token) && Truthy(uid) then
                fetchedFor == Some(uid) && userId == uid &&
                (fetched.Ok? ==> recommendations == fetched.value.0.GetOr([]) && pending == fetched.value.1.GetOr([])) &&
                (fetched.Err? ==> recommendations == old(recommendations) && pending == old(pending))
              else
                fetchedFor == None && userId == old(userId) &&
                recommendations == old(recommendations) && pending == old(pending)
      ensures tab == old(tab) && search == old(search)
    {
      var token := GetItem(window.storage, AccessTokenKey);
      if !(token.Some? && token.value != "") {
        return None;
      }
      var uid := Jwt.GetUserIdFromToken(token, atob, jsonParse);
      if !Truthy(uid) {
        return None;
      }
      userId := uid;
      fetchedFor := Some(uid);
      if fetched.Ok? {
        var (rec, pend) := fetched.value;
        recommendations := rec.GetOr([]);
        pending := pend.GetOr([]);
      }
    }

    /** What `handleAccept` and `handleReject` share once the call has been chosen. */
    method Answer(call: FriendCall, answered: Outcome<Response>) returns (made: Option<FriendCall>)
      requires call.userId == userId
      modifies this
      ensures !Truthy(old(userId)) ==> made == None && pending == old(pending)
      ensures Truthy(old(userId)) ==> made == Some(call)
      ensures Truthy(old(userId)) && answered.Ok? ==> pending == WithoutSender(old(pending), call.friendId)
      ensures answered.Err? ==> pending == old(pending)
      ensures userId == old(userId) && recommendations == old(recommendations)
      ensures tab == old(tab) && search == old(search)
    {
      if !Truthy(userId) {
        return None;
      }
      made := Some(call);
      if answered.Ok? {
        pending := WithoutSender(pending, call.friendId);
      }
    }

    /**
     * `handleAccept(friendId)`: nothing without a user id; otherwise the accept call is
     * made and, when it succeeds, every request from `friendId` leaves the pending list.
     */
    method HandleAccept(friendId: Primitive, answered: Outcome<Response>) returns (made: Option<FriendCall>)
      modifies this
      ensures !Truthy(old(userId)) ==> made == None && pending == old(pending)
      ensures Truthy(old(userId)) ==> made == Some(AcceptCall(userId, friendId))
      ensures Truthy(old(userId)) && answered.Ok? ==> pending == WithoutSender(old(pending), friendId)
      ensures answered.Err? ==> pending == old(pending)
      ensures userId == old(userId) && recommendations == old(recommendations)
      ensures tab == old(tab) && search == old(search)
    {
      made := Answer(AcceptCall(userId, friendId), answered);
    }

    /** `handleReject(friendId)`: as `handleAccept`, with the reject call. */
    method HandleReject(friendId: Primitive, answered: Outcome<Response>) returns (made: Option<FriendCall>)
      modifies this
      ensures !Truthy(old(userId)) ==> made == None && pending == old(pending)
      ensures Truthy(old(userId)) ==> made == Some(RejectCall(userId, friendId))
      ensures Truthy(old(userId)) && answered.Ok? ==> pending == WithoutSender(old(pending), friendId)
      ensures answered.Err? ==> pending == old(pending)
      ensures userId == old(userId) && recommendations == old(recommendations)
      ensures tab == old(tab) && search == old(search)
    {
      made := Answer(RejectCall(userId, friendId), answered);
    }

    /** The suggestions the first tab lists for the current query. */
    function ShownRecommendations(): (shown: seq<User>)
      reads this
      ensures forall u :: u in shown <==> u in recommendations && Matches(search, u)
    {
      FilteredRecommendations(recommendations, search)
    }
  }
}
