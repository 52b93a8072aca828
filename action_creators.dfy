/** The action creators: the search criteria record turned into a pair list
    and an all-empty flag, the add action, and the fetch thunk as the trace
    of actions it dispatches for an abstract outcome of the HTTP request. */
module UserActionCreators {
  import opened UserTypes
  import opened Text
  import opened UserReducer

  // ---------------------------------------------------------------------------
  // The criteria record as a JavaScript object.

  /** `Object.keys(data)`: the four fixed keys, then the extra keys in
      insertion order. */
  function Keys(d: SearchedCustomer): (r: seq<string>)
    ensures |r| == 4 + |d.extra|
    ensures r[..4] == FixedKeys
    ensures forall i :: 4 <= i < |r| ==> r[i] == d.extra[i - 4].0
  {
    FixedKeys + seq(|d.extra|, i requires 0 <= i < |d.extra| => d.extra[i].0)
  }

  /** `data[key]` among the extra entries: the first entry with that key. */
  function LookupExtra(extra: seq<(string, string)>, key: string): (r: Option<string>)
    ensures r.Some? <==> exists i :: 0 <= i < |extra| && extra[i].0 == key
    ensures r.Some? ==> exists i :: 0 <= i < |extra| && extra[i] == (key, r.value)
  {
    if extra == [] then None
    else if extra[0].0 == key then Some(extra[0].1)
    else LookupExtra(extra[1..], key)
  }

  /** `data[key]`: defined exactly on the keys of the record. */
  function Lookup(d: SearchedCustomer, key: string): (r: Option<string>)
    ensures r.Some? <==> key in Keys(d)
  {
    if key == "name" then Some(d.name)
    else if key == "username" then Some(d.username)
    else if key == "email" then Some(d.email)
    else if key == "phone" then Some(d.phone)
    else
      var r := LookupExtra(d.extra, key);
      assert r.Some? ==> key in Keys(d) by {
        if r.Some? {
          var i :| 0 <= i < |d.extra| && d.extra[i].0 == key;
          assert Keys(d)[4 + i] == key;
        }
      }
      assert key in Keys(d) ==> r.Some? by {
        if key in Keys(d) {
          var k :| 0 <= k < |Keys(d)| && Keys(d)[k] == key;
          assert d.extra[k - 4].0 == key;
        }
      }
      r
  }

  /** The pair list `Object.keys(data).map(key => [key, data[key]])`. */
  function Entries(d: SearchedCustomer): (r: seq<(string, string)>)
    ensures |r| == 4 + |d.extra|
    ensures r[0] == ("name", d.name) && r[1] == ("username", d.username)
    ensures r[2] == ("email", d.email) && r[3] == ("phone", d.phone)
    ensures forall i :: 4 <= i < |r| ==> r[i] == d.extra[i - 4]
  {
    [("name", d.name), ("username", d.username), ("email", d.email), ("phone", d.phone)] + d.extra
  }

  lemma {:induction false} LookupExtraAt(extra: seq<(string, string)>, j: nat)
    requires j < |extra|
    requires forall i, k :: 0 <= i < k < |extra| ==> extra[i].0 != extra[k].0
    ensures LookupExtra(extra, extra[j].0) == Some(extra[j].1)
  {
    if j > 0 {
      assert extra[0].0 != extra[j].0;
      assert extra[1..][j - 1] == extra[j];
      LookupExtraAt(extra[1..], j - 1);
    }
  }

  /** One pair per key, in key order, carrying that key's value, and nothing else. */
  lemma EntriesPerKey(d: SearchedCustomer)
    requires WellFormed(d)
    ensures |Entries(d)| == |Keys(d)|
    ensures forall i :: 0 <= i < |Keys(d)| ==> Entries(d)[i] == (Keys(d)[i], Lookup(d, Keys(d)[i]).value)
  {
    var k, e := Keys(d), Entries(d);
    assert k[0] == "name" && k[1] == "username" && k[2] == "email" && k[3] == "phone" by {
      assert k[..4] == FixedKeys;
    }
    forall i | 4 <= i < |k|
      ensures e[i] == (k[i], Lookup(d, k[i]).value)
    {
      assert k[i] == d.extra[i - 4].0;
      assert e[i] == d.extra[i - 4];
      assert d.extra[i - 4].0 !in FixedKeys;
      LookupExtraAt(d.extra, i - 4);
    }
  }

  /** A record is well formed exactly when `Object.keys` lists no key twice. */
  lemma WellFormedIffKeysDistinct(d: SearchedCustomer)
    ensures WellFormed(d) <==> forall i, j :: 0 <= i < j < |Keys(d)| ==> Keys(d)[i] != Keys(d)[j]
  {
    var k := Keys(d);
    if WellFormed(d) {
      forall i, j | 0 <= i < j < |k| ensures k[i] != k[j] {
        if j >= 4 {
          assert k[j] == d.extra[j - 4].0;
          if i >= 4 {
            assert k[i] == d.extra[i - 4].0;
          } else {
            assert k[i] in FixedKeys;
          }
        }
      }
    }
    if forall i, j :: 0 <= i < j < |k| ==> k[i] != k[j] {
      forall i | 0 <= i < |d.extra| ensures d.extra[i].0 !in FixedKeys {
        assert k[4 + i] == d.extra[i].0;
        assert k[0] == "name" && k[1] == "username" && k[2] == "email" && k[3] == "phone";
      }
      forall i, j | 0 <= i < j < |d.extra| ensures d.extra[i].0 != d.extra[j].0 {
        assert k[4 + i] == d.extra[i].0 && k[4 + j] == d.extra[j].0;
      }
    }
  }

  /** `payload.every(([, value]) => value === "")`. */
  function AllValuesEmpty(pairs: seq<(string, string)>): (r: bool)
    ensures r <==> forall i :: 0 <= i < |pairs| ==> pairs[i].1 == ""
  {
    if pairs == [] then true
    else pairs[0].1 == "" && AllValuesEmpty(pairs[1..])
  }

  /** Every value of the criteria record is the empty string. */
  predicate CriteriaEmpty(d: SearchedCustomer)
  {
    && d.name == "" && d.username == "" && d.email == "" && d.phone == ""
    && forall i :: 0 <= i < |d.extra| ==> d.extra[i].1 == ""
  }

  // ---------------------------------------------------------------------------
  // The three creators.

  /** `searchUsers(data)`: a SEARCH_USERS action carrying the pairs of the
      record and a flag that is true exactly when every value is empty. */
  function SearchUsersAction(d: SearchedCustomer): (a: UserAction)
    ensures a.SearchUsers?
    ensures a.pairs == Entries(d)
    ensures a.allValuesEmpty <==> CriteriaEmpty(d)
  {
    var pairs := Entries(d);
    assert AllValuesEmpty(pairs) <==> CriteriaEmpty(d) by {
      assert pairs[0].1 == d.name && pairs[1].1 == d.username && pairs[2].1 == d.email && pairs[3].1 == d.phone;
      assert forall i :: 0 <= i < |d.extra| ==> pairs[4 + i] == d.extra[i];
      if CriteriaEmpty(d) {
        forall i | 4 <= i < |pairs| ensures pairs[i].1 == "" {
          assert pairs[i] == d.extra[i - 4];
        }
      }
    }
    SearchUsers(pairs, AllValuesEmpty(pairs))
  }

  /** `addUser(user)`: an ADD_USER action whose payload is the record as given. */
  function AddUserAction(u: Customer): (a: UserAction)
    ensures a.AddUser? && a.customer == u
  {
    AddUser(u)
  }

  /** What the HTTP request yields: the response data, or the stringified error. */
  datatype FetchOutcome = Responded(data: seq<Customer>) | Failed(message: string)

  /** `fetchUsers()`: FETCH_USERS, then exactly one of the success action with
      the response data or the error action with the message. */
  function FetchUsersTrace(outcome: FetchOutcome): (t: seq<UserAction>)
    ensures |t| == 2 && t[0] == FetchUsers
    ensures t[1].FetchUsersSuccess? <==> outcome.Responded?
    ensures t[1].FetchUsersError? <==> outcome.Failed?
    ensures outcome.Responded? ==> t[1] == FetchUsersSuccess(outcome.data)
    ensures outcome.Failed? ==> t[1] == FetchUsersError(outcome.message)
  {
    match outcome
    case Responded(data) => [FetchUsers, FetchUsersSuccess(data)]
    case Failed(message) => [FetchUsers, FetchUsersError(message)]
  }

  // ---------------------------------------------------------------------------
  // Creators composed with the reducer.

  /** Whether a record fits the criteria: each of the four text fields with a
      non-empty criterion starts with it, ignoring case. Extra keys name no
      string field of a record and do not constrain it. */
  predicate CriteriaMatch(c: Customer, d: SearchedCustomer)
  {
    && (d.name == "" || StartsWith(Lower(c.name), Lower(d.name)))
    && (d.username == "" || StartsWith(Lower(c.username), Lower(d.username)))
    && (d.email == "" || StartsWith(Lower(c.email), Lower(d.email)))
    && (d.phone == "" || StartsWith(Lower(c.phone), Lower(d.phone)))
  }

  lemma MatchesEntriesIff(c: Customer, d: SearchedCustomer)
    requires WellFormed(d)
    ensures MatchesAll(c, Entries(d)) <==> CriteriaMatch(c, d)
  {
    var e := Entries(d);
    assert SatisfiesPair(c, e[0]) && SatisfiesPair(c, e[1]) && SatisfiesPair(c, e[2]) && SatisfiesPair(c, e[3])
           <==> CriteriaMatch(c, d);
    forall i | 4 <= i < |e| ensures SatisfiesPair(c, e[i]) {
      assert e[i] == d.extra[i - 4];
    }
  }

  /** The flag computed by the creator never disagrees with the filter, so the
      shortcut is only an optimisation for actions built by `searchUsers`. */
  lemma SearchUsersActionFilters(s: UserState, d: SearchedCustomer)
    ensures Reduce(s, SearchUsersAction(d)).users == Filter(s.originalUsers, Entries(d))
  {
    var a := SearchUsersAction(d);
    if a.allValuesEmpty {
      FilterUnconstrained(s.originalUsers, a.pairs);
    }
  }

  /** Searching through the creator shows exactly the source records that fit
      the criteria, in source order. */
  lemma SearchUsersActionSelects(s: UserState, d: SearchedCustomer)
    requires WellFormed(d)
    ensures IsSubseq(Reduce(s, SearchUsersAction(d)).users, s.originalUsers)
    ensures forall c :: c in Reduce(s, SearchUsersAction(d)).users <==> c in s.originalUsers && CriteriaMatch(c, d)
    ensures forall c :: multiset(Reduce(s, SearchUsersAction(d)).users)[c]
                        == if CriteriaMatch(c, d) then multiset(s.originalUsers)[c] else 0
  {
    SearchUsersActionFilters(s, d);
    FilterSubsequence(s.originalUsers, Entries(d));
    forall c ensures c in Reduce(s, SearchUsersAction(d)).users <==> c in s.originalUsers && CriteriaMatch(c, d) {
      FilterMembership(s.originalUsers, Entries(d), c);
      MatchesEntriesIff(c, d);
    }
    forall c ensures multiset(Reduce(s, SearchUsersAction(d)).users)[c]
                     == if CriteriaMatch(c, d) then multiset(s.originalUsers)[c] else 0 {
      FilterCount(s.originalUsers, Entries(d), c);
      MatchesEntriesIff(c, d);
    }
  }

  /** Searching with all-empty criteria shows the whole source list. */
  lemma SearchAllEmptyShowsSource(s: UserState, d: SearchedCustomer)
    requires CriteriaEmpty(d)
    ensures Reduce(s, SearchUsersAction(d)).users == s.originalUsers
  {
  }

  /** Dispatching the add action appends the record to the visible list to
      form the new source list. */
  lemma AddUserActionAppends(s: UserState, u: Customer)
    ensures Reduce(s, AddUserAction(u)).originalUsers == s.users + [u]
    ensures Reduce(s, AddUserAction(u)).users == s.users
  {
  }

  /** The state the fetch trace settles in: the response data in both lists,
      or the error message with both lists empty. Either way it is not loading. */
  lemma FetchUsersSettles(s: UserState, outcome: FetchOutcome)
    ensures ReduceAll(s, FetchUsersTrace(outcome)) ==
            match outcome
            case Responded(data) => UserState(data, false, None, data)
            case Failed(message) => UserState([], false, Some(message), [])
    ensures !ReduceAll(s, FetchUsersTrace(outcome)).loading
  {
    var t := FetchUsersTrace(outcome);
    var mid := Reduce(s, t[0]);
    assert t[1..] == [t[1]] && t[1..][1..] == [];
    assert ReduceAll(s, t) == ReduceAll(mid, [t[1]]);
    assert ReduceAll(mid, [t[1]]) == ReduceAll(Reduce(mid, t[1]), []);
  }

  /** Between the two dispatches the lists are empty, and the loading screen
      shows exactly when the source list was empty before the fetch. */
  lemma FetchUsersPending(s: UserState, outcome: FetchOutcome)
    ensures Reduce(s, FetchUsersTrace(outcome)[0]).users == []
    ensures Reduce(s, FetchUsersTrace(outcome)[0]).loading <==> s.originalUsers == []
  {
  }

  // ---------------------------------------------------------------------------
  // Worked scenarios.

  const Leanne: Customer := Customer(1, "Leanne Graham", "Bret", "a@b.com", "1")

  /** "lea" finds "Leanne Graham". */
  lemma ScenarioNamePrefixMatches()
    ensures Reduce(UserState([Leanne], false, None, [Leanne]),
                   SearchUsersAction(SearchedCustomer("lea", "", "", "", []))).users == [Leanne]
  {
    var d := SearchedCustomer("lea", "", "", "", []);
    assert Lower("Leanne Graham")[..3] == "lea";
    assert Lower("lea") == "lea";
    assert CriteriaMatch(Leanne, d);
    SearchUsersActionSelects(UserState([Leanne], false, None, [Leanne]), d);
    MatchesEntriesIff(Leanne, d);
  }

  /** "zzz" finds nothing. */
  lemma ScenarioNoMatch()
    ensures Reduce(UserState([Leanne], false, None, [Leanne]),
                   SearchUsersAction(SearchedCustomer("zzz", "", "", "", []))).users == []
  {
    var d := SearchedCustomer("zzz", "", "", "", []);
    assert Lower("Leanne Graham")[0] == 'l';
    assert Lower("zzz")[0] == 'z';
    assert !CriteriaMatch(Leanne, d);
    MatchesEntriesIff(Leanne, d);
  }

  /** "jo" matches "John", ignoring case. */
  lemma ScenarioCaseInsensitive()
    ensures SatisfiesPair(Customer(3, "John", "j", "j@x.org", "5"), ("name", "jo"))
  {
    StartsWithLowerIff("John", "jo");
  }

  /** A failed fetch settles in the error state. */
  lemma ScenarioNetworkError(s: UserState)
    ensures ReduceAll(s, FetchUsersTrace(Failed("Network Error"))) == UserState([], false, Some("Network Error"), [])
  {
    FetchUsersSettles(s, Failed("Network Error"));
  }

  /** Adding a second record to a one-record list gives a two-record source list. */
  lemma ScenarioAddSecond()
    ensures |Reduce(UserState([Leanne], false, None, [Leanne]),
                    AddUserAction(Customer(2, "New", "new", "n@e.w", "2"))).originalUsers| == 2
  {
  }
}
