/**
 The users slice of the application store: the list of users together with
 the flags of the one asynchronous load, and the reducers that change them.

 The pure functions below say what each reducer computes; the class
 `UsersState` holds the three fields the reducers mutate in place and its
 methods are proved to compute exactly those functions.
 */
module UsersSlice {
  import opened JsValues

  /** A user record. `fields` holds every property other than `id`. */
  datatype User = User(id: int, fields: map<string, Value>)

  /** The user as the JavaScript object the store holds: its fields with `id` set. */
  function AsObject(u: User): (o: map<string, Value>)
    ensures o.Keys == u.fields.Keys + {"id"}
    ensures o["id"] == Num(u.id)
    ensures forall k :: k in u.fields && k != "id" ==> o[k] == u.fields[k]
  {
    u.fields["id" := Num(u.id)]
  }

  /** `user.id === id`, where `id` is `None` when it reads as `undefined`. */
  predicate IdMatches(u: User, id: Option<Value>)
  {
    id == Some(Num(u.id))
  }

  /** The match is strict equality between the stored object's `id` and the payload value. */
  lemma IdMatchesStrictEquality(u: User, id: Option<Value>)
    ensures IdMatches(u, id) <==> id == Get(AsObject(u), "id")
  {
  }

  /** `user.company?.name`, `None` when either is missing. */
  function CompanyName(u: User): (r: Option<Value>)
    ensures r.Some? <==>
              "company" in u.fields && u.fields["company"].Obj? && "name" in u.fields["company"].props
    ensures r.Some? ==> r.value == u.fields["company"].props["name"]
  {
    if "company" in u.fields && u.fields["company"].Obj? then Get(u.fields["company"].props, "name")
    else None
  }

  predicate UniqueIds(items: seq<User>)
  {
    forall i, j :: 0 <= i < j < |items| ==> items[i].id != items[j].id
  }

  // ---------------------------------------------------------------------
  // addUser

  /** The four address properties a locally created user starts with. */
  const AddressKeys: set<string> := {"street", "suite", "city", "zipcode"}

  /** The properties `addUser` sets whatever the payload says. */
  const FixedKeys: set<string> := {"id", "address", "phone", "website", "company"}

  /**
   The record `addUser` builds from its payload: the payload's properties,
   then the id taken from the clock, empty address, phone and website, and a
   company object whose name is the payload's `company` when that is truthy.
   */
  function NewUser(payload: map<string, Value>, now: int): (u: User)
    ensures u.id == now
    ensures u.fields.Keys == (payload.Keys - {"id"}) + (FixedKeys - {"id"})
    ensures u.fields["phone"] == Str("") && u.fields["website"] == Str("")
    ensures u.fields["address"].Obj?
    ensures u.fields["address"].props.Keys == AddressKeys
    ensures forall k :: k in AddressKeys ==> u.fields["address"].props[k] == Str("")
    ensures u.fields["company"].Obj? && u.fields["company"].props.Keys == {"name"}
    ensures "company" in payload && Truthy(payload["company"]) ==>
              u.fields["company"].props["name"] == payload["company"]
    ensures "company" !in payload || !Truthy(payload["company"]) ==>
              u.fields["company"].props["name"] == Str("")
    ensures forall k :: k in payload && k !in FixedKeys ==> u.fields[k] == payload[k]
  {
    var address := map["street" := Str(""), "suite" := Str(""), "city" := Str(""), "zipcode" := Str("")];
    var company := map["name" := OrElse(payload, "company", Str(""))];
    var fields := (payload - {"id"})["address" := Obj(address)]["phone" := Str("")]
                  ["website" := Str("")]["company" := Obj(company)];
    User(now, fields)
  }

  // ---------------------------------------------------------------------
  // updateUser

  /** `items.findIndex(user => user.id === id)`: the first matching index, or -1. */
  function FindIndex(items: seq<User>, id: Option<Value>): (r: int)
    ensures -1 <= r < |items|
    ensures r == -1 <==> forall k :: 0 <= k < |items| ==> !IdMatches(items[k], id)
    ensures r != -1 ==> IdMatches(items[r], id)
    ensures r != -1 ==> forall k :: 0 <= k < r ==> !IdMatches(items[k], id)
  {
    if items == [] then -1
    else if IdMatches(items[0], id) then 0
    else
      var r := FindIndex(items[1..], id);
      if r == -1 then -1 else r + 1
  }

  /** `{ ...user, ...payload }` restricted to the case the reducer uses it in. */
  function Merge(u: User, payload: map<string, Value>): (r: User)
    ensures r.id == u.id
    ensures Get(payload, "id") == Some(Num(u.id)) ==> AsObject(r) == AsObject(u) + payload
    ensures forall k :: k in payload && k != "id" ==> k in r.fields && r.fields[k] == payload[k]
    ensures forall k :: k in u.fields && k !in payload ==> k in r.fields && r.fields[k] == u.fields[k]
    ensures r.fields.Keys == u.fields.Keys + (payload.Keys - {"id"})
  {
    var r := User(u.id, u.fields + (payload - {"id"}));
    assert Get(payload, "id") == Some(Num(u.id)) ==> AsObject(r) == AsObject(u) + payload by {
      if Get(payload, "id") == Some(Num(u.id)) {
        assert AsObject(r).Keys == (AsObject(u) + payload).Keys;
      }
    }
    r
  }

  /** The list `updateUser` leaves: the first entry with the payload's id merged with the payload. */
  function Updated(items: seq<User>, payload: map<string, Value>): (r: seq<User>)
    ensures |r| == |items|
    ensures forall k :: 0 <= k < |r| ==> r[k].id == items[k].id
    ensures FindIndex(items, Get(payload, "id")) == -1 ==> r == items
    ensures var i := FindIndex(items, Get(payload, "id"));
            i != -1 ==> AsObject(r[i]) == AsObject(items[i]) + payload
    ensures var i := FindIndex(items, Get(payload, "id"));
            forall k :: 0 <= k < |r| && k != i ==> r[k] == items[k]
  {
    var i := FindIndex(items, Get(payload, "id"));
    if i == -1 then items else items[i := Merge(items[i], payload)]
  }

  // ---------------------------------------------------------------------
  // deleteUser

  /** `items.filter(user => user.id !== id)`. */
  function WithoutId(items: seq<User>, id: Value): (r: seq<User>)
    ensures |r| <= |items|
    ensures forall k :: 0 <= k < |r| ==> !IdMatches(r[k], Some(id))
    ensures (forall k :: 0 <= k < |items| ==> !IdMatches(items[k], Some(id))) ==> r == items
  {
    if items == [] then []
    else
      var rest := WithoutId(items[1..], id);
      assert items == [items[0]] + items[1..];
      (if IdMatches(items[0], Some(id)) then [] else [items[0]]) + rest
  }

  /** The filter distributes over concatenation. */
  lemma {:induction false} WithoutIdAppend(a: seq<User>, b: seq<User>, id: Value)
    ensures WithoutId(a + b, id) == WithoutId(a, id) + WithoutId(b, id)
  {
    if a == [] {
      assert a + b == b;
    } else {
      assert (a + b)[1..] == a[1..] + b;
      WithoutIdAppend(a[1..], b, id);
    }
  }

  /** Filtering one more element of a prefix appends it when its id differs. */
  lemma WithoutIdStep(all: seq<User>, i: nat, id: Value)
    requires i < |all|
    ensures WithoutId(all[..i + 1], id) ==
            WithoutId(all[..i], id) + if IdMatches(all[i], Some(id)) then [] else [all[i]]
  {
    assert all[..i + 1] == all[..i] + [all[i]];
    WithoutIdAppend(all[..i], [all[i]], id);
  }

  /**
   Deleting removes exactly the entries with that id: none of them is left,
   and every other entry is kept as many times as it occurs.
   */
  lemma {:induction false} WithoutIdCounts(items: seq<User>, id: Value)
    ensures forall u :: multiset(WithoutId(items, id))[u] ==
                        if IdMatches(u, Some(id)) then 0 else multiset(items)[u]
  {
    if items != [] {
      var x, tail := items[0], items[1..];
      var rest := WithoutId(tail, id);
      WithoutIdCounts(tail, id);
      assert items == [x] + tail;
      if IdMatches(x, Some(id)) {
        assert WithoutId(items, id) == rest;
      } else {
        assert WithoutId(items, id) == [x] + rest;
      }
    }
  }

  /** Every entry left by deleting was in the list, and none has the deleted id. */
  lemma WithoutIdSubset(items: seq<User>, id: Value)
    ensures forall u :: u in WithoutId(items, id) ==> u in items && !IdMatches(u, Some(id))
  {
    WithoutIdCounts(items, id);
    forall u | u in WithoutId(items, id) ensures u in items {
      assert multiset(WithoutId(items, id))[u] > 0;
    }
  }

  /** `a` occurs in `b` in the same relative order (greedy matching decides it). */
  predicate SubsequenceOf(a: seq<User>, b: seq<User>)
    decreases |b|
  {
    if a == [] then true
    else if b == [] then false
    else if a[0] == b[0] then SubsequenceOf(a[1..], b[1..])
    else SubsequenceOf(a, b[1..])
  }

  lemma {:induction false} SubsequenceOfTail(a: seq<User>, b: seq<User>)
    requires a != [] && SubsequenceOf(a, b)
    ensures SubsequenceOf(a[1..], b)
    decreases |b|, 0
  {
    assert b == [b[0]] + b[1..];
    if a[0] != b[0] {
      SubsequenceOfTail(a, b[1..]);
    }
    SubsequenceOfCons(a[1..], b[1..], b[0]);
  }

  lemma {:induction false} SubsequenceOfCons(a: seq<User>, b: seq<User>, x: User)
    requires SubsequenceOf(a, b)
    ensures SubsequenceOf(a, [x] + b)
    decreases |b|, 1
  {
    if a != [] {
      assert ([x] + b)[1..] == b;
      if a[0] == x {
        SubsequenceOfTail(a, b);
      }
    }
  }

  /** Deleting keeps the remaining entries in their relative order. */
  lemma {:induction false} WithoutIdKeepsOrder(items: seq<User>, id: Value)
    ensures SubsequenceOf(WithoutId(items, id), items)
  {
    if items != [] {
      var rest := WithoutId(items[1..], id);
      WithoutIdKeepsOrder(items[1..], id);
      if IdMatches(items[0], Some(id)) {
        assert WithoutId(items, id) == rest;
        SubsequenceOfCons(rest, items[1..], items[0]);
        assert [items[0]] + items[1..] == items;
      } else {
        assert WithoutId(items, id) == [items[0]] + rest;
        assert ([items[0]] + rest)[1..] == rest;
      }
    }
  }

  /** With unique ids, deleting an id that is present removes exactly one entry. */
  lemma {:induction false} WithoutPresentIdRemovesOne(items: seq<User>, k: nat)
    requires UniqueIds(items) && k < |items|
    ensures |WithoutId(items, Num(items[k].id))| == |items| - 1
  {
    var id := Num(items[k].id);
    if k == 0 {
      assert forall j :: 0 <= j < |items[1..]| ==> !IdMatches(items[1..][j], Some(id)) by {
        forall j | 0 <= j < |items[1..]| ensures items[1..][j].id != items[0].id {
          assert items[1..][j] == items[j + 1];
        }
      }
    } else {
      assert items[1..][k - 1] == items[k];
      assert items[0].id != items[k].id;
      WithoutPresentIdRemovesOne(items[1..], k - 1);
    }
  }

  /** Ids are unique in `[x] + rest` exactly when they are in `rest` and `x`'s id is new. */
  lemma UniqueIdsCons(x: User, rest: seq<User>)
    ensures UniqueIds([x] + rest) <==> UniqueIds(rest) && forall u :: u in rest ==> u.id != x.id
  {
    var r := [x] + rest;
    assert forall k :: 0 <= k < |rest| ==> r[k + 1] == rest[k];
    if UniqueIds(rest) && forall u :: u in rest ==> u.id != x.id {
      forall i, j | 0 <= i < j < |r| ensures r[i].id != r[j].id {
        assert r[j] == rest[j - 1] && r[j] in rest;
        if i > 0 {
          assert r[i] == rest[i - 1];
        }
      }
    }
    if UniqueIds(r) {
      forall u | u in rest ensures u.id != x.id {
        var k :| 0 <= k < |rest| && rest[k] == u;
        assert r[0] == x && r[k + 1] == u;
        assert r[0].id != r[k + 1].id;
      }
    }
  }

  /** Deleting keeps the ids unique. */
  lemma {:induction false} WithoutIdKeepsUnique(items: seq<User>, id: Value)
    requires UniqueIds(items)
    ensures UniqueIds(WithoutId(items, id))
  {
    if items != [] {
      var x, tail := items[0], items[1..];
      assert items == [x] + tail;
      UniqueIdsCons(x, tail);
      var rest := WithoutId(tail, id);
      WithoutIdKeepsUnique(tail, id);
      WithoutIdSubset(tail, id);
      if !IdMatches(x, Some(id)) {
        assert WithoutId(items, id) == [x] + rest;
        UniqueIdsCons(x, rest);
      }
    }
  }

  /** Adding a user under an id no entry has keeps the ids unique. */
  lemma AddFreshIdKeepsUnique(items: seq<User>, payload: map<string, Value>, now: int)
    requires UniqueIds(items)
    requires forall k :: 0 <= k < |items| ==> items[k].id != now
    ensures UniqueIds([NewUser(payload, now)] + items)
  {
    var r := [NewUser(payload, now)] + items;
    forall i, j | 0 <= i < j < |r| ensures r[i].id != r[j].id {
      assert r[j] == items[j - 1];
      if i > 0 {
        assert r[i] == items[i - 1];
      }
    }
  }

  /** Updating never changes an id, so the ids stay unique. */
  lemma UpdatedKeepsUnique(items: seq<User>, payload: map<string, Value>)
    requires UniqueIds(items)
    ensures UniqueIds(Updated(items, payload))
  {
  }

  // ---------------------------------------------------------------------
  // The store state

  class UsersState {
    var items: seq<User>
    var loading: bool
    var error: Option<string>

    /** The initial state: no users, not loading, no error. */
    constructor ()
      ensures items == [] && !loading && error == None
    {
      items := [];
      loading := false;
      error := None;
    }

    /** `addUser`: prepend the record built from the payload; `now` is `Date.now()`. */
    method AddUser(payload: map<string, Value>, now: int)
      modifies this
      ensures items == [NewUser(payload, now)] + old(items)
      ensures |items| == |old(items)| + 1 && items[0] == NewUser(payload, now) && items[1..] == old(items)
      ensures loading == old(loading) && error == old(error)
    {
      items := [NewUser(payload, now)] + items;
    }

    /** `updateUser`: merge the payload into the first entry with its id, if any. */
    method UpdateUser(payload: map<string, Value>)
      modifies this
      ensures items == Updated(old(items), payload)
      ensures loading == old(loading) && error == old(error)
    {
      var id := Get(payload, "id");
      var i := 0;
      while i < |items| && !IdMatches(items[i], id)
        invariant 0 <= i <= |items|
        invariant forall k :: 0 <= k < i ==> !IdMatches(items[k], id)
      {
        i := i + 1;
      }
      var index := if i < |items| then i else -1;
      assert index == FindIndex(items, id);
      if index != -1 {
        items := items[index := Merge(items[index], payload)];
      }
    }

    /** `deleteUser`: keep the entries whose id differs from the payload. */
    method DeleteUser(id: Value)
      modifies this
      ensures items == WithoutId(old(items), id)
      ensures loading == old(loading) && error == old(error)
    {
      var all := items;
      var kept := [];
      var i := 0;
      while i < |all|
        invariant 0 <= i <= |all|
        invariant kept == WithoutId(all[..i], id)
        modifies {}
      {
        WithoutIdStep(all, i, id);
        kept := kept + if IdMatches(all[i], Some(id)) then [] else [all[i]];
        i := i + 1;
      }
      assert all[..i] == all;
      items := kept;
    }

    /** `fetchUsers.pending`. */
    method FetchPending()
      modifies this
      ensures loading && error == None && items == old(items)
    {
      loading := true;
      error := None;
    }

    /** `fetchUsers.fulfilled`: the payload is the fetched list. */
    method FetchFulfilled(payload: seq<User>)
      modifies this
      ensures !loading && items == payload && error == old(error)
    {
      loading := false;
      items := payload;
    }

    /** `fetchUsers.rejected`: `message` is the rejected action's `error.message`. */
    method FetchRejected(message: string)
      modifies this
      ensures !loading && error == Some(message) && items == old(items)
    {
      loading := false;
      error := Some(message);
    }
  }
}
