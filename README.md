# User store of the admin panel, in Dafny

This project models the Redux state layer of a small admin panel that loads a
list of user records, filters it by case-insensitive prefix on several fields
at once, and appends new records locally.

- `types.dfy` (module `UserTypes`): the record `Customer`, the criteria record
  `SearchedCustomer`, the state `UserState` (`users` is the visible list,
  `originalUsers` the list it is filtered from, `loading`, `error`), the closed
  five-case `UserAction` union and its string tags (`Tag`, `TypeOf` and
  `TagInjective` are standalone: `Reduce` matches on the datatype directly), and `FieldOf`, the typed
  field lookup the search filter relies on.
- `text.dfy` (module `Text`): `toLowerCase` as ASCII `Lower` and `startsWith`
  as `StartsWith`; `LowerIdempotent` and `LowerPrefix` are standalone facts
  about lowercasing that the other proofs do not need.
- `reducer.dfy` (module `UserReducer`): `InitialState`, the reducer `Reduce`,
  the search filter (`SatisfiesPair`, `MatchesAll`, `Filter`), the dispatch of
  a sequence of actions (`ReduceAll`), an invariant of every reachable state,
  and one lemma per action case.
- `action_creators.dfy` (module `UserActionCreators`): `searchUsers`,
  `addUser` and `fetchUsers` (the latter as the trace of actions it dispatches
  for an abstract outcome of the HTTP request), with lemmas composing them with
  the reducer and the worked scenarios.

The reducer, `searchUsers`, `addUser` and the type declarations are pure, and
are modelled as datatypes, functions and lemmas; there is no object updated in
place and no loop in them. `fetchUsers` is effectful: an async thunk that
dispatches, awaits the HTTP request and dispatches again from a timer. It is
modelled as the trace of actions it dispatches for an abstract outcome of the
request.

The data model follows `src/types/user.ts`:

- `UserTypes.ActionType` and `UserTypes.Tag`: the `UserActionTypes` enum (src/types/user.ts:1-7).
- `UserTypes.Customer`: the user record, `id` numeric and four text fields (src/types/user.ts:8-14).
- `UserTypes.SearchedCustomer` with `UserTypes.WellFormed`: the criteria record, the four text fields plus further string keys of the index signature, each key held once (src/types/user.ts:15-21).
- `UserTypes.UserState`: the two lists, the loading flag and the optional error, `null` being `None` (src/types/user.ts:22-27).
- `UserTypes.UserAction`: the closed union of the five action interfaces (src/types/user.ts:28-48).
- `UserReducer.InitialState`: the initial state (src/store/reducers/userReducer.ts:3-8); its fields are stated by `UserReducer.InitialStateInv`.

Four behaviours of the code worth knowing:

- ADD_USER builds the new source list from the *visible* list plus the new
  record (`src/store/reducers/userReducer.ts:35`), not from the previous source
  list. Adding while a search hides records drops them from the source list
  (`UserReducer.AddUserDropsHidden`).
- ADD_USER leaves `error` and `loading` as they were; it does not clear the error.
- The visible list is an ordered selection of the source list after every
  action, from any state, with no exception during loading
  (`UserReducer.Reduce`).
- The SEARCH_USERS action carries its all-empty flag separately from its
  pairs; when the flag is true the pairs are ignored
  (`UserReducer.SearchFlagOverridesPairs`). Only for actions built by
  `searchUsers` does the flag agree with the pairs
  (`UserActionCreators.SearchUsersActionFilters`).

## Model

| member | source | states |
|---|---|---|
| `UserTypes.TagInjective` | src/types/user.ts:1-7 | two action types have the same tag string exactly when they are the same type, so the switch reaches one case per type |
| `UserTypes.TypeOf` | src/types/user.ts:28-48 | each of the five action variants has its own type tag; the union is closed, so no action of the five typed variants reaches the reducer's default branch (Redux's own init call, which does reach it with an undefined state, is rendered as starting from `InitialState`) |
| `UserTypes.FieldOf` | src/store/reducers/userReducer.ts:26-27 | the field under a key is a string exactly for `name`, `username`, `email` and `phone`; `id` (numeric) and unknown keys give none |
| `Text.LowerChar` | src/store/reducers/userReducer.ts:28 | upper-case ASCII letters map to their lower-case letter, every other character is kept, and no upper-case letter remains |
| `Text.Lower` | src/store/reducers/userReducer.ts:28 | lowercasing keeps the length and lowercases each character in place |
| `Text.LowerIdempotent` | src/store/reducers/userReducer.ts:28 | lowercasing twice is lowercasing once |
| `Text.LowerPrefix` | src/store/reducers/userReducer.ts:28 | lowercasing commutes with taking a prefix |
| `Text.StartsWithLowerIff` | src/store/reducers/userReducer.ts:28 | the case-insensitive prefix test holds iff the value is no longer than the field and agrees with it character by character after lowercasing |
| `Text.StartsWith` | src/store/reducers/userReducer.ts:28 | `startsWith` holds iff the prefix is no longer than the string and agrees with it position by position |
| `Text.StartsWithEmpty` | src/store/reducers/userReducer.ts:28 | every string starts with the empty string |
| `UserReducer.Constrains` | src/store/reducers/userReducer.ts:26-27 | a pair constrains a record iff its value is non-empty and its key names one of the four string fields, whatever the record |
| `UserReducer.SatisfiesPair` | src/store/reducers/userReducer.ts:25-30 | a pair that constrains nothing is passed; a binding pair on a text field is passed iff the lowercased field starts with the lowercased value |
| `UserReducer.EmptyValueGuardRedundant` | src/store/reducers/userReducer.ts:27-28 | for a string field the `value &&` guard is redundant: the prefix test with an empty value would pass anyway |
| `UserReducer.MatchesAll` | src/store/reducers/userReducer.ts:25-31 | a record passes the pair list iff it passes every pair |
| `UserReducer.Filter` | src/store/reducers/userReducer.ts:24-32 | the filtered list is no longer than the source and holds only source records that pass every pair |
| `UserReducer.FilterComplete` | src/store/reducers/userReducer.ts:24-32 | every source record that passes every pair is kept |
| `UserReducer.FilterCount` | src/store/reducers/userReducer.ts:24-32 | the filtered list holds every occurrence of a passing record and none of a failing one |
| `UserReducer.FilterMembership` | src/store/reducers/userReducer.ts:24-32 | a record is in the filtered list iff it is in the source list and passes every pair |
| `UserReducer.FilterSubsequence` | src/store/reducers/userReducer.ts:24-32 | the filtered list is a subsequence of the source list: order is preserved |
| `UserReducer.FilterAllPass` | src/store/reducers/userReducer.ts:24-32 | when every record passes, filtering returns the list unchanged |
| `UserReducer.FilterIdempotent` | src/store/reducers/userReducer.ts:24-32 | filtering twice with the same pairs is filtering once |
| `UserReducer.PairFreeIff` | src/store/reducers/userReducer.ts:27-30 | a pair constrains no record at all iff its value is empty or its key is not one of the four string fields |
| `UserReducer.FilterUnconstrained` | src/store/reducers/userReducer.ts:24-32 | with every value empty or every key outside the string fields (such as `id`), the filter returns the source list |
| `UserReducer.Reduce` | src/store/reducers/userReducer.ts:9-39 | after any action, from any state, the visible list is an ordered selection of the source list |
| `UserReducer.ReduceAll` | src/store/reducers/userReducer.ts:9-39 | dispatching a non-empty sequence of actions ends with the visible list an ordered selection of the source list |
| `UserReducer.InitialStateInv` | src/store/reducers/userReducer.ts:3-8 | the initial state has both lists empty, is not loading, has no error, and satisfies the state invariant |
| `UserReducer.InvVisibleFromSource` | src/store/reducers/userReducer.ts:9-39 | under the invariant every visible record is a source record and the visible list is no longer than the source list |
| `UserReducer.ReducePreservesInv` | src/store/reducers/userReducer.ts:9-39 | every action preserves the invariant: visible list drawn in order from the source list, and an error only with an empty visible list and no loading |
| `UserReducer.ReduceAllPreservesInv` | src/store/reducers/userReducer.ts:9-39 | every sequence of actions preserves the invariant |
| `UserReducer.ReachableInv` | src/store/reducers/userReducer.ts:3-39 | every state reachable from the initial state satisfies the invariant |
| `UserReducer.FetchUsersResets` | src/store/reducers/userReducer.ts:11-12 | FETCH_USERS empties both lists and clears the error; loading holds iff the old source list was empty |
| `UserReducer.FetchUsersSuccessInstalls` | src/store/reducers/userReducer.ts:13-14 | FETCH_USERS_SUCCESS makes both lists the payload, not loading, no error |
| `UserReducer.FetchUsersErrorRecords` | src/store/reducers/userReducer.ts:15-16 | FETCH_USERS_ERROR records the message, empties both lists, not loading |
| `UserReducer.SearchUsersSelects` | src/store/reducers/userReducer.ts:17-33 | SEARCH_USERS keeps the source list, clears the error, loads iff the source is empty, shows the whole source under the flag, and otherwise shows exactly the passing source records in order, each passing record as often as it occurs in the source |
| `UserReducer.SearchUsersIdempotent` | src/store/reducers/userReducer.ts:17-33 | applying the same SEARCH_USERS twice gives the state of applying it once |
| `UserReducer.SearchShortcutAgrees` | src/store/reducers/userReducer.ts:22-32 | when all values are empty, the flagged shortcut and the filter give the same state |
| `UserReducer.SearchFlagOverridesPairs` | src/store/reducers/userReducer.ts:22-23 | a true flag shows a record that a binding pair would hide: the flag is not tied to the pairs |
| `UserReducer.AddUserRebuilds` | src/store/reducers/userReducer.ts:34-35 | ADD_USER makes the source list the visible list plus the record (length one more than the visible list) and changes nothing else |
| `UserReducer.AddUserDropsHidden` | src/store/reducers/userReducer.ts:35 | a record hidden by the current search is lost from the source list by an add |
| `UserReducer.AddThenShowAll` | src/store/reducers/userReducer.ts:17-35 | an add followed by an all-empty search shows the old visible list plus the record, not loading |
| `UserActionCreators.Keys` | src/store/action-creators/user.ts:22 | `Object.keys(data)` lists the four text keys, then each extra key in order |
| `UserActionCreators.WellFormedIffKeysDistinct` | src/types/user.ts:15-21 | a criteria record is well formed iff its key list repeats no key, as a JavaScript object's cannot |
| `UserActionCreators.Entries` | src/store/action-creators/user.ts:22 | the pair list opens with the four text keys and their values and continues with the extra entries, one pair per key |
| `UserActionCreators.LookupExtra` | src/store/action-creators/user.ts:22 | looking up an extra key finds a value iff some entry has that key, and the value found belongs to such an entry |
| `UserActionCreators.Lookup` | src/store/action-creators/user.ts:22 | `data[key]` is defined exactly on the keys of the record |
| `UserActionCreators.EntriesPerKey` | src/store/action-creators/user.ts:22 | the pair list has one pair per key, in key order, holding that key's value, and nothing else |
| `UserActionCreators.AllValuesEmpty` | src/store/action-creators/user.ts:23 | the flag is true iff every value is empty (vacuously for no pairs) |
| `UserActionCreators.SearchUsersAction` | src/store/action-creators/user.ts:21-30 | `searchUsers` returns a SEARCH_USERS action carrying the record's pairs and a flag that is true iff every value of the record is empty |
| `UserActionCreators.AddUserAction` | src/store/action-creators/user.ts:31-36 | `addUser` returns an ADD_USER action whose payload is the given record |
| `UserActionCreators.FetchUsersTrace` | src/store/action-creators/user.ts:5-20 | `fetchUsers` dispatches FETCH_USERS, then exactly one of success with the response data or error with the message |
| `UserActionCreators.MatchesEntriesIff` | src/store/reducers/userReducer.ts:24-32 | a record passes the pairs built from well-formed criteria iff each of its four text fields with a non-empty criterion starts with it, ignoring case |
| `UserActionCreators.SearchUsersActionFilters` | src/store/action-creators/user.ts:22-23 | for an action built by `searchUsers`, the reducer's shortcut never differs from the filter |
| `UserActionCreators.SearchUsersActionSelects` | src/store/reducers/userReducer.ts:17-33 | searching through `searchUsers` shows exactly the source records that fit the criteria, in source order, each as often as it occurs in the source |
| `UserActionCreators.SearchAllEmptyShowsSource` | src/store/action-creators/user.ts:22-23 | searching with all-empty criteria shows the whole source list |
| `UserActionCreators.AddUserActionAppends` | src/store/action-creators/user.ts:31-36 | dispatching `addUser(u)` makes the source list the visible list plus `u` and keeps the visible list |
| `UserActionCreators.FetchUsersSettles` | src/store/action-creators/user.ts:7-18 | after the whole fetch trace the state is the data in both lists with no error, or the message with both lists empty; never loading |
| `UserActionCreators.FetchUsersPending` | src/store/action-creators/user.ts:8 | between the two dispatches the visible list is empty and loading holds iff the source list was empty before |
| `UserActionCreators.ScenarioNamePrefixMatches` | src/store/reducers/userReducer.ts:24-32 | criterion "lea" keeps the record named "Leanne Graham" |
| `UserActionCreators.ScenarioNoMatch` | src/store/reducers/userReducer.ts:24-32 | criterion "zzz" keeps nothing of that list |
| `UserActionCreators.ScenarioCaseInsensitive` | src/store/reducers/userReducer.ts:27-28 | "jo" matches the name "John" |
| `UserActionCreators.ScenarioNetworkError` | src/store/action-creators/user.ts:13-18 | a failed fetch with "Network Error" settles in the error state with both lists empty |
| `UserActionCreators.ScenarioAddSecond` | src/store/reducers/userReducer.ts:34-35 | adding a record to a one-record list gives a two-record source list |

## Left out

- `Text.Lower`: lowercases ASCII letters only; the Unicode and locale rules of `toLowerCase` are not modelled.
- `UserTypes.Customer`: `id` is a Dafny `int`, not a JavaScript floating-point number; nothing in the core computes with it.
- `UserActionCreators.Keys` and `UserActionCreators.EntriesPerKey`: the model fixes the key order name, username, email, phone, then the extra keys in insertion order. That is the order the search form's initial state in `src/components/UserList.tsx:8-13` produces, not an order JavaScript guarantees for every `SearchedCustomer` (integer-like keys come first, and a record built differently may list the four fields in another order).
- The HTTP request and the three-second `setTimeout` before the success dispatch are I/O and timing; the request is the abstract `FetchOutcome`, and the stringification of the caught error is the outcome's message.
- An exception thrown inside the delayed success callback would escape the `try`; the model has no exceptions there.
- Overlapping fetches and the order in which the host delivers callbacks are concurrency; the model dispatches one sequence of actions.
- The reducer's default parameter `state = initialState` is modelled by starting sequences from `UserReducer.InitialState`; Redux store wiring and the hooks that select state and bind action creators are not part of this model.
- The `UserList` component (rendering, form state, the new-record id `users.length + 1`, the form reset, the effect that re-searches) is presentation and is left out.
