/**
 * The document store: one map per collection, keyed by identifier, and the
 * invariant the schemas keep on it. Listings enumerate a collection in
 * ascending identifier order.
 */
module Store {
  import opened Wrappers
  import opened Messages
  import opened Ids
  import opened PostModel
  import opened UserModel

  datatype Store = Store(users: map<Id, User>, posts: map<Id, Post>)

  /** The store after a service call, together with the call's outcome. */
  datatype Step<T> = Step(result: Result<T, ErrorKind>, store: Store)

  /** No two stored users share an email (the unique index on `email`). */
  predicate UniqueEmails(users: map<Id, User>) {
    forall a, b :: a in users && b in users && users[a].email == users[b].email ==> a == b
  }

  /**
   * The invariant every service call keeps: each stored document satisfies
   * its schema and sits under its own identifier, and emails are unique.
   */
  predicate Valid(s: Store) {
    && UsersStored(s.users)
    && (forall id :: id in s.posts ==> s.posts[id].id == id && IsStoredPost(s.posts[id]))
    && UniqueEmails(s.users)
  }

  /** Whether some stored user has exactly this (normalised) email. */
  predicate EmailTaken(users: map<Id, User>, email: string) {
    exists id :: id in users && users[id].email == email
  }

  /** `m` is the least identifier of `ks`. */
  predicate IsLeast(m: Id, ks: set<Id>) {
    m in ks && forall k :: k in ks ==> m <= k
  }

  /** The user map's part of `Valid`. */
  predicate UsersStored(users: map<Id, User>) {
    forall id :: id in users ==> users[id].id == id && IsStoredUser(users[id])
  }

  lemma PutKeepsUnique(users: map<Id, User>, id: Id, u: User)
    requires UniqueEmails(users)
    requires !EmailTaken(users, u.email) || (id in users && users[id].email == u.email)
    ensures UniqueEmails(users[id := u])
  {
    assert forall k :: k in users && k != id ==> users[k].email != u.email;
    var m := users[id := u];
    forall a, b | a in m && b in m && m[a].email == m[b].email
      ensures a == b
    {
      if a != id && b != id {
        assert m[a] == users[a] && m[b] == users[b];
      }
    }
  }

  /** Writing a storable user whose email no other user has keeps the store valid. */
  lemma PutUserKeepsValid(s: Store, id: Id, u: User)
    requires Valid(s)
    requires u.id == id && IsStoredUser(u)
    requires !EmailTaken(s.users, u.email) || (id in s.users && s.users[id].email == u.email)
    ensures Valid(s.(users := s.users[id := u]))
  {
    assert UsersStored(s.users[id := u]);
    PutKeepsUnique(s.users, id, u);
  }

  /** Writing a storable post under its own id keeps the store valid. */
  lemma PutPostKeepsValid(s: Store, id: Id, p: Post)
    requires Valid(s)
    requires p.id == id && IsStoredPost(p)
    ensures Valid(s.(posts := s.posts[id := p]))
  {
  }

  lemma {:induction false} MinExists(ks: set<Id>)
    requires ks != {}
    ensures exists m :: IsLeast(m, ks)
    decreases ks
  {
    var x :| x in ks;
    var rest := ks - {x};
    if rest == {} {
      assert ks == {x};
      assert IsLeast(x, ks);
    } else {
      MinExists(rest);
      var m :| IsLeast(m, rest);
      assert forall k :: k in ks ==> k == x || k in rest;
      if x < m {
        assert IsLeast(x, ks);
      } else {
        assert IsLeast(m, ks);
      }
    }
  }

  /** The least identifier of a non-empty collection. */
  function MinId(ks: set<Id>): (m: Id)
    requires ks != {}
    ensures IsLeast(m, ks)
  {
    MinExists(ks);
    var m :| IsLeast(m, ks);
    m
  }

  /** The identifiers of a collection in ascending order, each once. */
  function SortedIds(ks: set<Id>): (r: seq<Id>)
    ensures forall k :: k in ks <==> k in r
    ensures forall i, j :: 0 <= i < j < |r| ==> r[i] < r[j]
    ensures |r| == |ks|
    decreases ks
  {
    if ks == {} then []
    else
      var m := MinId(ks);
      assert |ks - {m}| == |ks| - 1;
      [m] + SortedIds(ks - {m})
  }

  /** The values a map holds at `ids`, in that order. */
  function ValuesAt<V>(m: map<Id, V>, ids: seq<Id>): (r: seq<V>)
    requires forall k :: k in ids ==> k in m
    ensures |r| == |ids|
    ensures forall i :: 0 <= i < |ids| ==> r[i] == m[ids[i]]
  {
    if ids == [] then [] else [m[ids[0]]] + ValuesAt(m, ids[1..])
  }

  /** Every value of a map exactly once, in ascending key order. */
  function InKeyOrder<V(==,!new)>(m: map<Id, V>): (r: seq<V>)
    ensures |r| == |m|
    ensures forall v :: v in r <==> v in m.Values
  {
    var ids := SortedIds(m.Keys);
    var r := ValuesAt(m, ids);
    assert forall v :: v in m.Values ==> v in r by {
      forall v | v in m.Values ensures v in r {
        var id :| id in m && m[id] == v;
        var i :| 0 <= i < |ids| && ids[i] == id;
        assert r[i] == v;
      }
    }
    r
  }

  /** Every stored post, in identifier order (`Post.find()`). */
  function AllPosts(s: Store): (r: seq<Post>)
    ensures |r| == |s.posts|
    ensures forall p :: p in r <==> p in s.posts.Values
  {
    InKeyOrder(s.posts)
  }

  /** Every stored user, in identifier order (`User.find()`). */
  function AllUsers(s: Store): (r: seq<User>)
    ensures |r| == |s.users|
    ensures forall u :: u in r <==> u in s.users.Values
  {
    InKeyOrder(s.users)
  }

  /** The elements of `xs` that satisfy `keep`, in their original order. */
  function Filter<T(!new)>(xs: seq<T>, keep: T -> bool): (r: seq<T>)
    ensures forall x :: x in r <==> x in xs && keep(x)
    ensures |r| <= |xs|
  {
    if xs == [] then []
    else (if keep(xs[0]) then [xs[0]] else []) + Filter(xs[1..], keep)
  }
}
