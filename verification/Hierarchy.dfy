/** `subordinate_user_ids` (accounts/access.py): the users below somebody in
    the created-by hierarchy, level by level, also when it has cycles. */
module Hierarchy {
  type User = nat

  /** Employee profiles: who created which user.  One profile for each user,
      and none or a removed creator for those at the top. */
  type Profiles = map<User, User>

  /** A chain of at least one created-by edge from `from` down to `to`. */
  ghost predicate Chain(profiles: Profiles, path: seq<User>, from: User, to: User) {
    |path| >= 2 && path[0] == from && path[|path| - 1] == to &&
    forall i :: 1 <= i < |path| ==> path[i] in profiles && profiles[path[i]] == path[i - 1]
  }

  ghost predicate Below(profiles: Profiles, from: User, to: User) {
    exists path :: Chain(profiles, path, from, to)
  }

  lemma DirectBelow(profiles: Profiles, user: User)
    requires user in profiles
    ensures Below(profiles, profiles[user], user)
  {
    assert Chain(profiles, [profiles[user], user], profiles[user], user);
  }

  lemma BelowExtends(profiles: Profiles, from: User, user: User)
    requires user in profiles && Below(profiles, from, profiles[user])
    ensures Below(profiles, from, user)
  {
    var path :| Chain(profiles, path, from, profiles[user]);
    assert Chain(profiles, path + [user], from, user);
  }

  /** A set that holds everybody the root created and everybody its own
      members created holds everybody below the root. */
  lemma {:induction false} ClosedSetHoldsChain(profiles: Profiles, s: set<User>, path: seq<User>, from: User, to: User)
    requires Chain(profiles, path, from, to)
    requires forall u :: u in profiles && (profiles[u] == from || profiles[u] in s) ==> u in s
    ensures to in s
  {
    var n := |path| - 1;
    if n > 1 {
      assert Chain(profiles, path[..n], from, path[n - 1]);
      ClosedSetHoldsChain(profiles, s, path[..n], from, path[n - 1]);
    }
  }

  /** The breadth-first closure: exactly the users below, minus the user. */
  method SubordinateUserIds(profiles: Profiles, user: User) returns (descendants: set<User>)
    ensures forall u :: u in descendants <==> Below(profiles, user, u) && u != user
  {
    descendants := {};
    var frontier := {user};
    while frontier != {}
      invariant descendants <= profiles.Keys
      invariant forall u :: u in descendants ==> Below(profiles, user, u)
      invariant forall u :: u in frontier ==> u == user || u in descendants
      invariant forall u ::
        u in profiles && (profiles[u] == user || profiles[u] in descendants) && profiles[u] !in frontier ==>
        u in descendants
      decreases profiles.Keys - descendants, frontier
    {
      var children := (set u | u in profiles && profiles[u] in frontier) - descendants;
      forall u | u in children ensures Below(profiles, user, u) {
        if profiles[u] == user {
          DirectBelow(profiles, u);
        } else {
          BelowExtends(profiles, user, u);
        }
      }
      descendants := descendants + children;
      frontier := children;
    }
    forall u | Below(profiles, user, u) ensures u in descendants {
      var path :| Chain(profiles, path, user, u);
      ClosedSetHoldsChain(profiles, descendants, path, user, u);
    }
    descendants := descendants - {user};
  }
}
