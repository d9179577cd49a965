# Gym management service: a Dafny model

This project models the core of a small record-management service for a gym,
written in TypeScript for the Azle canister runtime. The service keeps three
independent keyed collections: members, gym classes and trainers. For each one
it offers list, get, add, full update and delete. Members also have three
single-field updates: membership type, email and name. On top of the store sit
three read-only queries:

- a case-insensitive substring search over member names and emails;
- an exact start-time filter over gym classes;
- a trainer availability check over a time window.

Structure:

- `results.dfy` (module `Results`): `Option`, and a `Result` whose error is one
  of two kinds, `Validation` or `NotFound`.
- `text.dfy` (module `Text`): the JavaScript string operations the service
  uses. `LexLe` is JavaScript's `<=` on strings, proved to be a total order.
  `ToLower` is `toLowerCase`, restricted to ASCII. `Trim` is `trim`, over the
  full ECMAScript whitespace and line-terminator set. `Includes` is `includes`,
  proved equivalent to "occurs at some position".
- `entities.dfy` (module `Entities`): the records, the creation payloads, the
  update payloads and the "add" validation rules. It also holds record creation
  and the update merge. An update payload is a patch: a `Some` field is a key
  the JavaScript object carries, a `None` field is a key it lacks.
- `queries.dfy` (module `Queries`): `filter`, the three queries over a snapshot
  of a collection, and the lemmas about them.
- `store.dfy` (module `Store`): the enumeration behind `values()`, and the
  class `GymStore`. Its three `map` fields are the three storages. Each entry
  point is a method, and the class invariant `Valid()` says that every record
  is stored under its own id and that `""` is never a key.

Each creation takes the fresh identifier (`uuidv4()`) and the clock value
(`ic.time()`) as parameters. Each update takes the clock value the same way.
The fresh id must be non-empty and not already a key.

Three behaviours of the code worth noting:

- `updateMembershipType` validates neither the id nor the new value. An empty
  id is simply not found.
- `addGymClass` accepts any non-zero capacity, negative ones included.
- Full updates do not validate the new field values. An update can set a
  trainer's specializations to an empty list or a class's capacity to 0.

## Model

| member | source | states |
|---|---|---|
| Text.FirstDifferenceDecides | src/index.ts:322-323 | where two strings first differ, the smaller character makes its string compare `<` |
| Text.LexLeReflexive | src/index.ts:322-323 | every string compares `<=` to itself |
| Text.LexLeAntisymmetric | src/index.ts:322-323 | `a <= b` and `b <= a` only for equal strings |
| Text.LexLeTransitive | src/index.ts:322-323 | the string order used by the availability check is transitive |
| Text.LexLeTotal | src/index.ts:322-323 | any two strings are comparable |
| Text.LexLe | src/index.ts:322-323 | JavaScript's `<=` on strings: a string that begins another never compares above it |
| Text.ToLower | src/index.ts:287-288 | `toLowerCase` keeps the length and lowers each ASCII letter, leaving other characters alone |
| Text.ToLowerIdempotent | src/index.ts:287-288 | lowering twice is lowering once |
| Text.TrimStart | src/index.ts:282 | the result is a suffix of the input, preceded only by whitespace, and does not begin with whitespace |
| Text.TrimEnd | src/index.ts:282 | the result is a prefix of the input, followed only by whitespace, and does not end with whitespace |
| Text.TrimStartEmpty | src/index.ts:282 | leading trimming empties a string exactly when it is all whitespace |
| Text.TrimEndEmpty | src/index.ts:282 | trailing trimming empties a string exactly when it is all whitespace |
| Text.Trim | src/index.ts:282 | the result is the block of the input that starts where the leading whitespace ends, with only whitespace before and after it and none at its own ends; `query.trim() === ""` exactly when every character of the query is whitespace |
| Text.TrimPadded | src/index.ts:282 | cutting leading whitespace and then trailing whitespace leaves a block of the input with only whitespace around it |
| Text.Includes | src/index.ts:287-288 | the empty string is included in every string, and an included string is no longer than the one that includes it |
| Text.OccursAtIncludes | src/index.ts:287-288 | an occurrence of `t` at any position of `s` makes `s.includes(t)` true |
| Text.IncludesOccurs | src/index.ts:287-288 | when `s.includes(t)` holds, `t` occurs at some position of `s` |
| Text.IncludesIff | src/index.ts:287-288 | `s.includes(t)` holds exactly when `t` occurs at some position of `s` |
| Entities.MemberPatchEmpty | src/index.ts:95 | a payload with no keys would change nothing but `updatedAt` (that `Store.GymStore.UpdateMember` rejects it is that method's contract) |
| Entities.GymClassPatchEmpty | src/index.ts:203 | the same for a gym-class payload |
| Entities.TrainerPatchEmpty | src/index.ts:257 | the same for a trainer payload |
| Entities.NewMember | src/index.ts:84 | a new member has the fresh id, `createdAt = now`, no `updatedAt`, and exactly the payload's fields |
| Entities.NewGymClass | src/index.ts:179 | a new class has the fresh id, `createdAt = now`, no `updatedAt`, and exactly the payload's fields |
| Entities.NewTrainer | src/index.ts:233 | a new trainer has the fresh id, `createdAt = now`, no `updatedAt`, and exactly the payload's fields |
| Entities.MergeMember | src/index.ts:101 | the update keeps id and `createdAt`, sets `updatedAt = Some(now)`; each payload key overwrites its field, each absent key leaves it |
| Entities.MergeGymClass | src/index.ts:209 | the same merge rule for a gym class, over all six payload fields |
| Entities.MergeTrainer | src/index.ts:263 | the same merge rule for a trainer, over its three payload fields |
| Entities.MergeFullPayload | src/index.ts:101 | a payload with every key replaces the record's whole payload part; the result is the record as created with that payload, plus the update time |
| Entities.WithMembershipType | src/index.ts:122 | keeps id and `createdAt`, sets `updatedAt = Some(now)`, and changes only `membershipType` among the payload fields |
| Entities.WithEmail | src/index.ts:143 | keeps id and `createdAt`, sets `updatedAt = Some(now)`, and changes only `email` among the payload fields |
| Entities.WithName | src/index.ts:163 | keeps id and `createdAt`, sets `updatedAt = Some(now)`, and changes only `name` among the payload fields |
| Entities.SingleFieldUpdatesArePatches | src/index.ts:122 | each single-field member update equals a full update whose payload carries only that key |
| Queries.Filter | src/index.ts:286-289 | `filter` keeps exactly the elements satisfying the predicate, each as often as it occurs, in their original order |
| Queries.MatchesQuery | src/index.ts:287-288 | the empty query matches every member, and a matching query is no longer than the name or the email |
| Queries.SearchMembers | src/index.ts:280-291 | a blank query (empty or whitespace only) is a validation error; otherwise the result holds exactly the snapshot members whose lowered name or email contains the lowered, untrimmed query, each as often as in the snapshot and in the snapshot's order |
| Queries.MatchesQueryCaseInsensitive | src/index.ts:287-288 | lower-casing the query first does not change which members match |
| Queries.AliceMatches | src/index.ts:287-288 | "alice" matches the name "Alice Smith" and the email "bob@alice.org" |
| Queries.SearchExample | src/index.ts:286-290 | searching "alice" over those two members returns both, in order |
| Queries.FilterGymClassesByStartTime | src/index.ts:294-304 | an empty start time is a validation error; otherwise the result holds exactly the classes whose start time equals it, each as often as in the snapshot and in the snapshot's order |
| Queries.Conflicts | src/index.ts:321-323 | the bounds are inclusive: for a window that does not end before it starts, a class of the trainer that starts at the window's start or ends at its end is a conflict; a class of another trainer never is |
| Queries.CheckTrainerAvailability | src/index.ts:307-328 | empty trainer id, start or end time is a validation error; an unknown trainer is NotFound; otherwise true iff no class of that trainer has its own start or end inside the inclusive window |
| Queries.CheckTrainerAvailabilityAsWritten | src/index.ts:316-325 | as written: only empty arguments are errors, and they are validation errors; an unknown trainer gets the conflict answer |
| Queries.MissingTrainerReportedAvailable | src/index.ts:316-317 | with no trainers stored, the written check answers Ok(true) for "missing-id"; the intended check answers NotFound |
| Queries.AsWrittenAgreesOnKnownTrainers | src/index.ts:316-325 | the written and the intended check agree on invalid input and on every known trainer |
| Queries.ConflictIsOverlap | src/index.ts:320-324 | a reported conflict of a well-formed class really overlaps the window |
| Queries.ContainingClassNotConflict | src/index.ts:322-323 | a class whose window strictly contains the queried window is not a conflict |
| Queries.InvertedWindowHasNoConflict | src/index.ts:322-323 | a window that ends before it starts conflicts with no class |
| Queries.AvailabilityExamples | src/index.ts:320-325 | for 09:00-10:00 a class at 09:30 makes the trainer busy, and a class 08:00-11:00 does not |
| Store.Enumerate | src/index.ts:66 | `values()` lists every stored value once: one entry per key, each key's value, no key twice |
| Store.DistinctKeysOccurOnce | src/index.ts:66 | in a listing whose records have pairwise different ids, each record occurs at most once |
| Store.SubBagKeepsDistinctKeys | src/index.ts:286-289 | a filtered listing of records with different ids still has different ids |
| Store.GymStore.constructor | src/index.ts:61-63 | the three storages start empty |
| Store.GymStore.GetMembers | src/index.ts:65-67 | all stored members, one per key, none missing and no two with the same id |
| Store.GymStore.GetMember | src/index.ts:70-75 | the member under `id`, which carries that id, or NotFound |
| Store.GymStore.AddMember | src/index.ts:78-87 | rejected exactly when `Entities.MemberPayloadValid` fails, that is when the name, email, join date or membership type is empty: a validation error with nothing changed; otherwise the new record is stored under the fresh id, a later get returns it, and no other key changes |
| Store.GymStore.UpdateMember | src/index.ts:90-107 | an empty id or a payload with no keys is a validation error, a missing id NotFound, both with nothing changed; otherwise (exactly when the id is non-empty, the payload has a key and the id is stored) the result is Ok and the merged record replaces the stored one, keeping its id and `createdAt` |
| Store.GymStore.DeleteMember | src/index.ts:110-115 | an existing key is removed and its record returned; a missing one is NotFound with nothing changed; afterwards get fails |
| Store.GymStore.UpdateMembershipType | src/index.ts:119-128 | no validation: a missing id (the empty one included) is NotFound; otherwise only `membershipType` and `updatedAt` change |
| Store.GymStore.UpdateMemberEmail | src/index.ts:132-149 | an empty id or email is a validation error; a missing id NotFound; otherwise (exactly then) Ok, and only `email` and `updatedAt` change |
| Store.GymStore.UpdateMemberName | src/index.ts:152-169 | an empty id or name is a validation error; a missing id NotFound; otherwise (exactly then) Ok, and only `name` and `updatedAt` change |
| Store.GymStore.AddGymClass | src/index.ts:173-182 | rejected exactly when `Entities.GymClassPayloadValid` fails, that is when the name, start time, end time or trainer id is empty or the capacity is 0: a validation error with nothing changed; the description is not checked; otherwise the class is stored under the fresh id |
| Store.GymStore.GetGymClasses | src/index.ts:185-187 | all stored classes, one per key, none missing |
| Store.GymStore.GetGymClass | src/index.ts:190-195 | the class under `id`, which carries that id, or NotFound |
| Store.GymStore.UpdateGymClass | src/index.ts:198-215 | the full-update rules for gym classes: Ok exactly when the id is non-empty, the payload has a key and the id is stored, and then the merged class replaces the stored one |
| Store.GymStore.DeleteGymClass | src/index.ts:218-223 | the delete rules for gym classes |
| Store.GymStore.AddTrainer | src/index.ts:227-236 | rejected exactly when `Entities.TrainerPayloadValid` fails, that is when the name or email is empty or there is no specialization: a validation error with nothing changed; otherwise the trainer is stored under the fresh id |
| Store.GymStore.GetTrainers | src/index.ts:239-241 | all stored trainers, one per key, none missing |
| Store.GymStore.GetTrainer | src/index.ts:244-249 | the trainer under `id`, which carries that id, or NotFound |
| Store.GymStore.UpdateTrainer | src/index.ts:252-269 | the full-update rules for trainers: Ok exactly when the id is non-empty, the payload has a key and the id is stored, and then the merged trainer replaces the stored one |
| Store.GymStore.DeleteTrainer | src/index.ts:272-277 | the delete rules for trainers |
| Store.GymStore.SearchMembers | src/index.ts:280-291 | the search over the stored members: blank query rejected, otherwise exactly the stored members that match, no two with the same id; storage unchanged |
| Store.GymStore.FilterGymClassesByStartTime | src/index.ts:294-304 | an empty start time is rejected; otherwise exactly the stored classes with that start time, no two with the same id; storage unchanged |
| Store.GymStore.CheckTrainerAvailability | src/index.ts:307-329 | the availability answer over the stored trainers and classes, with NotFound for an unknown trainer |
| Store.MemberLifecycle | src/index.ts:78-128 | adding a member, changing its membership type, renaming it and deleting it returns the record with all the changes and leaves the storage as it was |

## Findings

| source | as written | input that shows it | evidently intended | confidence | as-written member | corrected member |
|---|---|---|---|---|---|---|
| src/index.ts:316-317 | `if (trainer)` tests an Azle `Opt`, an object in both cases and so always truthy; the "trainer not found" branch at line 327 never runs | no trainers stored, `checkTrainerAvailability("missing-id", "09:00", "10:00")` answers Ok(true) | an unknown trainer id yields a not-found error | not executed; high (relies on `Opt` being an object) | Queries.CheckTrainerAvailabilityAsWritten | Queries.CheckTrainerAvailability |

`Queries.MissingTrainerReportedAvailable` exhibits the input. The store's
`CheckTrainerAvailability` uses the corrected check.

## Left out

- The `globalThis.crypto` shim (src/index.ts:331-343): `Math.random` randomness for the uuid library.
- `uuidv4()` and `ic.time()`: both are parameters of the operations that use them. The uuid library is not part of this model.
- Clock monotonicity: the model takes whatever `now` it is given, so it does not prove that `updatedAt` never decreases.
- `StableBTreeMap` persistence, its memory-id and size arguments, and durability across restarts. Each storage is a plain `map`.
- The Azle `$query`/`$update` decorators, Candid encoding and the `match` plumbing: these are host-runtime dispatch.
- The exact error-message texts. Only the error kind is kept.
- The `!payload` null checks (lines 80, 95, 175, 203, 229, 257) and `!payload.specializations`: a decoded payload is always present, so these cannot fail.
- JavaScript falsiness of `capacity: number` for NaN: capacity is an `int`, and the check is "not 0". Floating-point capacities are not modelled.
- Text.ToLower: covers ASCII letters only. Full Unicode case mapping of `toLowerCase` is not modelled.
- Text.LexLe: compares Unicode scalar values. JavaScript compares UTF-16 code units, and the two orders differ only between supplementary-plane characters and U+E000-U+FFFF.
- The order of `values()`: `Store.Enumerate` fixes no order. Each stored record is listed once, and `Queries.Filter` keeps the listing's order, but the store-level queries state their results by membership and distinct ids only.
- Entities.MemberPatchEmpty, Entities.GymClassPatchEmpty, Entities.TrainerPatchEmpty: an update payload decoded from Candid always carries every key, so in the deployed service the empty-payload check cannot fire; the patch encoding admits more payloads than the service can receive.
- Concurrency: each entry point runs to completion before the next one starts.
