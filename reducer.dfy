/** The user reducer: a total function from a state and one of the five
    actions to the next state, and the search filter it applies. */
module UserReducer {
  import opened UserTypes
  import opened Text

  /** The state before any action: both lists empty, not loading, no error. */
  const InitialState: UserState := UserState([], false, None, [])

  // ---------------------------------------------------------------------------
  // Subsequences: the order-preserving "visible list is drawn from the source
  // list" relation.

  /** `a` is obtained from `b` by deleting elements, keeping the rest in order. */
  predicate IsSubseq<T(==)>(a: seq<T>, b: seq<T>)
    decreases |b|
  {
    if a == [] then true
    else if b == [] then false
    else (a[0] == b[0] && IsSubseq(a[1..], b[1..])) || IsSubseq(a, b[1..])
  }

  lemma {:induction false} IsSubseqRefl<T>(a: seq<T>)
    ensures IsSubseq(a, a)
    decreases |a|
  {
    if a != [] {
      IsSubseqRefl(a[1..]);
    }
  }

  lemma {:induction false} IsSubseqAppend<T>(a: seq<T>, b: seq<T>, u: T)
    requires IsSubseq(a, b)
    ensures IsSubseq(a, b + [u])
    decreases |b|
  {
    if a != [] {
      assert (b + [u])[1..] == b[1..] + [u];
      if a[0] == b[0] && IsSubseq(a[1..], b[1..]) {
        IsSubseqAppend(a[1..], b[1..], u);
      } else {
        IsSubseqAppend(a, b[1..], u);
      }
    }
  }

  /** A subsequence is no longer than its source and draws every element from it. */
  lemma {:induction false} IsSubseqMembers<T>(a: seq<T>, b: seq<T>)
    requires IsSubseq(a, b)
    ensures |a| <= |b|
    ensures forall x :: x in a ==> x in b
    decreases |b|
  {
    if a != [] {
      if a[0] == b[0] && IsSubseq(a[1..], b[1..]) {
        IsSubseqMembers(a[1..], b[1..]);
        forall x | x in a ensures x in b {
          if x != a[0] {
            assert x in a[1..];
          }
        }
      } else {
        IsSubseqMembers(a, b[1..]);
      }
    }
  }

  // ---------------------------------------------------------------------------
  // The search predicate.

  /** A (key, value) pair constrains a record only when the value is non-empty
      and the record's field under that key is a string. */
  predicate Constrains(c: Customer, pair: (string, string))
    ensures Constrains(c, pair) <==> pair.1 != "" && pair.0 in FixedKeys
  {
    pair.1 != "" && FieldOf(c, pair.0).Some?
  }

  /** The record passes the pair: either the pair imposes nothing, or the
      lowercased field starts with the lowercased value. */
  predicate SatisfiesPair(c: Customer, pair: (string, string))
    ensures !Constrains(c, pair) ==> SatisfiesPair(c, pair)
    ensures pair.0 == "name" && pair.1 != "" ==> (SatisfiesPair(c, pair) <==> StartsWith(Lower(c.name), Lower(pair.1)))
    ensures pair.0 == "username" && pair.1 != "" ==> (SatisfiesPair(c, pair) <==> StartsWith(Lower(c.username), Lower(pair.1)))
    ensures pair.0 == "email" && pair.1 != "" ==> (SatisfiesPair(c, pair) <==> StartsWith(Lower(c.email), Lower(pair.1)))
    ensures pair.0 == "phone" && pair.1 != "" ==> (SatisfiesPair(c, pair) <==> StartsWith(Lower(c.phone), Lower(pair.1)))
  {
    Constrains(c, pair) ==> StartsWith(Lower(FieldOf(c, pair.0).value), Lower(pair.1))
  }

  /** `every` over the pair list, element by element. */
  function MatchesAll(c: Customer, pairs: seq<(string, string)>): (r: bool)
    ensures r <==> forall i :: 0 <= i < |pairs| ==> SatisfiesPair(c, pairs[i])
  {
    if pairs == [] then true
    else SatisfiesPair(c, pairs[0]) && MatchesAll(c, pairs[1..])
  }

  /** `filter`: the records of `s` that pass every pair, in their original order. */
  function Filter(s: seq<Customer>, pairs: seq<(string, string)>): (r: seq<Customer>)
    ensures |r| <= |s|
    ensures forall c :: c in r ==> c in s && MatchesAll(c, pairs)
  {
    if s == [] then []
    else if MatchesAll(s[0], pairs) then [s[0]] + Filter(s[1..], pairs)
    else Filter(s[1..], pairs)
  }

  /** Completeness: a record of the source list that passes every pair is kept. */
  lemma {:induction false} FilterComplete(s: seq<Customer>, pairs: seq<(string, string)>, c: Customer)
    requires c in s && MatchesAll(c, pairs)
    ensures c in Filter(s, pairs)
  {
    if s[0] != c {
      FilterComplete(s[1..], pairs, c);
    }
  }

  /** The filter keeps every occurrence of a passing record and none of a
      failing one. */
  lemma {:induction false} FilterCount(s: seq<Customer>, pairs: seq<(string, string)>, c: Customer)
    ensures multiset(Filter(s, pairs))[c] == if MatchesAll(c, pairs) then multiset(s)[c] else 0
  {
    if s != [] {
      FilterCount(s[1..], pairs, c);
      assert s == [s[0]] + s[1..];
    }
  }

  /** The empty-value guard in front of the prefix test changes nothing for a
      string field: every lowercased field starts with the lowercased empty
      value anyway. */
  lemma EmptyValueGuardRedundant(c: Customer, key: string)
    requires FieldOf(c, key).Some?
    ensures StartsWith(Lower(FieldOf(c, key).value), Lower(""))
  {
    assert Lower("") == "";
    StartsWithEmpty(Lower(FieldOf(c, key).value));
  }

  /** The filter is sound and complete. */
  lemma FilterMembership(s: seq<Customer>, pairs: seq<(string, string)>, c: Customer)
    ensures c in Filter(s, pairs) <==> c in s && MatchesAll(c, pairs)
  {
    if c in s && MatchesAll(c, pairs) {
      FilterComplete(s, pairs, c);
    }
  }

  /** The filter keeps the relative order of the records it keeps. */
  lemma {:induction false} FilterSubsequence(s: seq<Customer>, pairs: seq<(string, string)>)
    ensures IsSubseq(Filter(s, pairs), s)
  {
    if s != [] {
      FilterSubsequence(s[1..], pairs);
      if !MatchesAll(s[0], pairs) && Filter(s[1..], pairs) != [] {
        assert IsSubseq(Filter(s, pairs), s[1..]);
      }
    }
  }

  /** When every record passes, the filter returns the list unchanged. */
  lemma {:induction false} FilterAllPass(s: seq<Customer>, pairs: seq<(string, string)>)
    requires forall i :: 0 <= i < |s| ==> MatchesAll(s[i], pairs)
    ensures Filter(s, pairs) == s
  {
    if s != [] {
      FilterAllPass(s[1..], pairs);
    }
  }

  lemma FilterIdempotent(s: seq<Customer>, pairs: seq<(string, string)>)
    ensures Filter(Filter(s, pairs), pairs) == Filter(s, pairs)
  {
    var f := Filter(s, pairs);
    assert forall i :: 0 <= i < |f| ==> f[i] in f;
    FilterAllPass(f, pairs);
  }

  /** A pair binds no record at all exactly when its value is empty or its key
      does not name one of the four string fields (for instance `id`). */
  lemma PairFreeIff(pair: (string, string))
    ensures (forall c :: SatisfiesPair(c, pair)) <==> (pair.1 == "" || pair.0 !in FixedKeys)
  {
    if pair.1 != "" && pair.0 in FixedKeys {
      var blank := Customer(0, "", "", "", "");
      assert FieldOf(blank, pair.0) == Some("");
      assert |Lower(pair.1)| > 0;
      assert !SatisfiesPair(blank, pair);
    }
  }

  /** With every value empty (or every key outside the string fields) the
      filter returns the source list. */
  lemma FilterUnconstrained(s: seq<Customer>, pairs: seq<(string, string)>)
    requires forall i :: 0 <= i < |pairs| ==> pairs[i].1 == "" || pairs[i].0 !in FixedKeys
    ensures Filter(s, pairs) == s
  {
    FilterAllPass(s, pairs);
  }

  // ---------------------------------------------------------------------------
  // The reducer.

  /** The reducer. Every result has its visible list drawn, in order, from its
      source list, whatever the state before. */
  function Reduce(state: UserState, action: UserAction): (r: UserState)
    ensures IsSubseq(r.users, r.originalUsers)
  {
    match action
    case FetchUsers =>
      state.(loading := |state.originalUsers| == 0, error := None, users := [], originalUsers := [])
    case FetchUsersSuccess(customers) =>
      IsSubseqRefl(customers);
      state.(loading := false, error := None, users := customers, originalUsers := customers)
    case FetchUsersError(message) =>
      state.(loading := false, error := Some(message), users := [], originalUsers := [])
    case SearchUsers(pairs, allValuesEmpty) =>
      IsSubseqRefl(state.originalUsers);
      FilterSubsequence(state.originalUsers, pairs);
      state.(loading := |state.originalUsers| == 0, error := None,
             users := if allValuesEmpty then state.originalUsers else Filter(state.originalUsers, pairs))
    case AddUser(customer) =>
      IsSubseqRefl(state.users);
      IsSubseqAppend(state.users, state.users, customer);
      state.(originalUsers := state.users + [customer])
  }

  /** Dispatching a sequence of actions in order. */
  function ReduceAll(state: UserState, actions: seq<UserAction>): (r: UserState)
    ensures actions != [] ==> IsSubseq(r.users, r.originalUsers)
    ensures IsSubseq(state.users, state.originalUsers) ==> IsSubseq(r.users, r.originalUsers)
    decreases |actions|
  {
    if actions == [] then state
    else ReduceAll(Reduce(state, actions[0]), actions[1..])
  }

  /** What holds of every reachable state: the visible list is an ordered
      selection of the source list, and an error is shown only with an empty,
      not-loading visible list. */
  predicate Inv(s: UserState)
  {
    && IsSubseq(s.users, s.originalUsers)
    && (s.error.Some? ==> s.users == [] && !s.loading)
  }

  lemma InitialStateInv()
    ensures InitialState.users == [] && InitialState.originalUsers == []
    ensures !InitialState.loading && InitialState.error == None
    ensures Inv(InitialState)
  {
  }

  /** Under the invariant every visible record is a source record, and the
      visible list is no longer than the source list. */
  lemma InvVisibleFromSource(s: UserState)
    requires Inv(s)
    ensures |s.users| <= |s.originalUsers|
    ensures forall c :: c in s.users ==> c in s.originalUsers
  {
    IsSubseqMembers(s.users, s.originalUsers);
  }

  lemma ReducePreservesInv(s: UserState, action: UserAction)
    requires Inv(s)
    ensures Inv(Reduce(s, action))
  {
  }

  lemma {:induction false} ReduceAllPreservesInv(s: UserState, actions: seq<UserAction>)
    requires Inv(s)
    ensures Inv(ReduceAll(s, actions))
    decreases |actions|
  {
    if actions != [] {
      ReducePreservesInv(s, actions[0]);
      ReduceAllPreservesInv(Reduce(s, actions[0]), actions[1..]);
    }
  }

  /** Every state reachable from the initial one satisfies the invariant. */
  lemma ReachableInv(actions: seq<UserAction>)
    ensures Inv(ReduceAll(InitialState, actions))
  {
    ReduceAllPreservesInv(InitialState, actions);
  }

  // ---------------------------------------------------------------------------
  // One lemma per action case.

  /** FETCH_USERS empties both lists and clears the error; it shows the
      loading state exactly when the previous source list was empty. */
  lemma FetchUsersResets(s: UserState)
    ensures Reduce(s, FetchUsers).users == [] && Reduce(s, FetchUsers).originalUsers == []
    ensures Reduce(s, FetchUsers).error == None
    ensures Reduce(s, FetchUsers).loading <==> s.originalUsers == []
  {
  }

  /** FETCH_USERS_SUCCESS installs the payload as both lists. */
  lemma FetchUsersSuccessInstalls(s: UserState, customers: seq<Customer>)
    ensures Reduce(s, FetchUsersSuccess(customers)) == UserState(customers, false, None, customers)
  {
  }

  /** FETCH_USERS_ERROR records the message and empties both lists. */
  lemma FetchUsersErrorRecords(s: UserState, message: string)
    ensures Reduce(s, FetchUsersError(message)) == UserState([], false, Some(message), [])
  {
  }

  /** SEARCH_USERS keeps the source list, clears the error, loads exactly when
      the source list is empty, and shows exactly the source records that pass
      the filter (all of them under the all-empty shortcut), in source order. */
  lemma SearchUsersSelects(s: UserState, pairs: seq<(string, string)>, allValuesEmpty: bool)
    ensures Reduce(s, SearchUsers(pairs, allValuesEmpty)).originalUsers == s.originalUsers
    ensures Reduce(s, SearchUsers(pairs, allValuesEmpty)).error == None
    ensures Reduce(s, SearchUsers(pairs, allValuesEmpty)).loading <==> |s.originalUsers| == 0
    ensures allValuesEmpty ==> Reduce(s, SearchUsers(pairs, allValuesEmpty)).users == s.originalUsers
    ensures IsSubseq(Reduce(s, SearchUsers(pairs, allValuesEmpty)).users, s.originalUsers)
    ensures forall c :: c in Reduce(s, SearchUsers(pairs, allValuesEmpty)).users
                        <==> c in s.originalUsers && (allValuesEmpty || MatchesAll(c, pairs))
    ensures forall c :: multiset(Reduce(s, SearchUsers(pairs, allValuesEmpty)).users)[c]
                        == if allValuesEmpty || MatchesAll(c, pairs) then multiset(s.originalUsers)[c] else 0
  {
    forall c ensures c in Reduce(s, SearchUsers(pairs, allValuesEmpty)).users
                     <==> c in s.originalUsers && (allValuesEmpty || MatchesAll(c, pairs)) {
      FilterMembership(s.originalUsers, pairs, c);
    }
    forall c ensures multiset(Reduce(s, SearchUsers(pairs, allValuesEmpty)).users)[c]
                     == if allValuesEmpty || MatchesAll(c, pairs) then multiset(s.originalUsers)[c] else 0 {
      FilterCount(s.originalUsers, pairs, c);
    }
  }

  /** Searching twice with the same action is searching once. */
  lemma SearchUsersIdempotent(s: UserState, pairs: seq<(string, string)>, allValuesEmpty: bool)
    ensures Reduce(Reduce(s, SearchUsers(pairs, allValuesEmpty)), SearchUsers(pairs, allValuesEmpty))
            == Reduce(s, SearchUsers(pairs, allValuesEmpty))
  {
  }

  /** The all-empty shortcut agrees with running the filter whenever the flag
      is true of the pairs. */
  lemma SearchShortcutAgrees(s: UserState, pairs: seq<(string, string)>)
    requires forall i :: 0 <= i < |pairs| ==> pairs[i].1 == ""
    ensures Reduce(s, SearchUsers(pairs, true)) == Reduce(s, SearchUsers(pairs, false))
  {
    FilterUnconstrained(s.originalUsers, pairs);
  }

  /** The flag is not tied to the pairs: a true flag with a binding pair shows
      records the filter would hide. */
  lemma SearchFlagOverridesPairs()
    ensures Reduce(UserState([], false, None, [Customer(1, "Ann", "ann", "a@b.c", "1")]), SearchUsers([("name", "zzz")], true)).users
         != Reduce(UserState([], false, None, [Customer(1, "Ann", "ann", "a@b.c", "1")]), SearchUsers([("name", "zzz")], false)).users
  {
    var c := Customer(1, "Ann", "ann", "a@b.c", "1");
    assert !StartsWith(Lower("Ann"), Lower("zzz")) by {
      assert Lower("Ann")[0] == 'a';
      assert Lower("zzz")[0] == 'z';
    }
    assert !MatchesAll(c, [("name", "zzz")]) by {
      assert !SatisfiesPair(c, ("name", "zzz"));
    }
  }

  /** ADD_USER rebuilds the source list from the visible list plus the new
      record; visible list, loading flag and error stay as they were. */
  lemma AddUserRebuilds(s: UserState, u: Customer)
    ensures Reduce(s, AddUser(u)).originalUsers == s.users + [u]
    ensures |Reduce(s, AddUser(u)).originalUsers| == |s.users| + 1
    ensures Reduce(s, AddUser(u)).users == s.users
    ensures Reduce(s, AddUser(u)).loading == s.loading && Reduce(s, AddUser(u)).error == s.error
  {
  }

  /** Adding while a search hides a record drops that record from the source
      list. */
  lemma AddUserDropsHidden(s: UserState, u: Customer, hidden: Customer)
    requires hidden in s.originalUsers && hidden !in s.users && hidden != u
    ensures hidden !in Reduce(s, AddUser(u)).originalUsers
  {
  }

  /** The search that follows an add shows the new record: with empty
      criteria the visible list becomes the old visible list plus the record. */
  lemma AddThenShowAll(s: UserState, u: Customer, pairs: seq<(string, string)>)
    ensures Reduce(Reduce(s, AddUser(u)), SearchUsers(pairs, true)).users == s.users + [u]
    ensures !Reduce(Reduce(s, AddUser(u)), SearchUsers(pairs, true)).loading
  {
  }
}
