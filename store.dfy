/** The service's three keyed collections and every entry point that reads
    or changes them.  The fresh identifier (`uuidv4()`) and the clock value
    (`ic.time()`) of an operation are its parameters. */
module Store {
  import opened Results
  import opened Entities
  import Queries
  import Text

  /** `storage.values()`: every stored value once, in an order the map does
      not fix.  `keys` is the matching enumeration of the keys. */
  method Enumerate<V(==)>(m: map<string, V>) returns (values: seq<V>, ghost keys: seq<string>)
    ensures |values| == |keys| == |m|
    ensures forall i :: 0 <= i < |keys| ==> keys[i] in m && values[i] == m[keys[i]]
    ensures forall k :: k in m ==> k in keys
    ensures forall i, j :: 0 <= i < j < |keys| ==> keys[i] != keys[j]
    ensures forall v :: v in values <==> v in m.Values
  {
    values, keys := [], [];
    var rest := m.Keys;
    while rest != {}
      invariant rest <= m.Keys
      invariant |values| == |keys| && |keys| + |rest| == |m|
      invariant forall i :: 0 <= i < |keys| ==> keys[i] in m && keys[i] !in rest && values[i] == m[keys[i]]
      invariant forall k :: k in m ==> k in rest || k in keys
      invariant forall i, j :: 0 <= i < j < |keys| ==> keys[i] != keys[j]
      decreases |rest|
    {
      var k :| k in rest;
      values, keys := values + [m[k]], keys + [k];
      rest := rest - {k};
    }
    forall v | v in m.Values ensures v in values {
      var k :| k in m && m[k] == v;
      var i :| 0 <= i < |keys| && keys[i] == k;
      assert values[i] == v;
    }
  }

  /** In a sequence whose elements have pairwise different keys, every
      value occurs at most once. */
  lemma {:induction false} DistinctKeysOccurOnce<T(!new)>(s: seq<T>, key: T -> string, x: T)
    requires forall i, j :: 0 <= i < j < |s| ==> key(s[i]) != key(s[j])
    ensures multiset(s)[x] <= 1
  {
    if s != [] {
      assert s == [s[0]] + s[1..];
      DistinctKeysOccurOnce(s[1..], key, x);
      if s[0] == x {
        assert forall j :: 0 <= j < |s[1..]| ==> key(s[1..][j]) != key(s[0]) by {
          forall j | 0 <= j < |s[1..]| ensures key(s[1..][j]) != key(s[0]) {
            assert s[1..][j] == s[j + 1];
          }
        }
      }
    }
  }

  /** Taking some of the elements of a sequence with pairwise different
      keys, each at most as often as there, keeps the keys different. */
  lemma {:induction false} SubBagKeepsDistinctKeys<T(!new)>(r: seq<T>, s: seq<T>, key: T -> string)
    requires multiset(r) <= multiset(s)
    requires forall i, j :: 0 <= i < j < |s| ==> key(s[i]) != key(s[j])
    ensures forall i, j :: 0 <= i < j < |r| ==> key(r[i]) != key(r[j])
  {
    forall i, j | 0 <= i < j < |r| ensures key(r[i]) != key(r[j]) {
      if key(r[i]) == key(r[j]) {
        assert r[i] in multiset(s) && r[j] in multiset(s);
        var a :| 0 <= a < |s| && s[a] == r[i];
        var b :| 0 <= b < |s| && s[b] == r[j];
        assert a == b;
        var x := r[i];
        assert r == r[..j] + r[j..];
        assert x in r[..j] && x in r[j..];
        assert multiset(r)[x] == multiset(r[..j])[x] + multiset(r[j..])[x];
        DistinctKeysOccurOnce(s, key, x);
        assert false;
      }
    }
  }

  class GymStore {
    var members: map<string, Member>
    var classes: map<string, GymClass>
    var trainers: map<string, Trainer>

    /** Every record is stored under its own id, and the empty string,
        which the identifier generator never produces, is no key. */
    ghost predicate Valid()
      reads this
    {
      && "" !in members && "" !in classes && "" !in trainers
      && (forall k :: k in members ==> members[k].id == k)
      && (forall k :: k in classes ==> classes[k].id == k)
      && (forall k :: k in trainers ==> trainers[k].id == k)
    }

    constructor ()
      ensures Valid()
      ensures members == map[] && classes == map[] && trainers == map[]
    {
      members, classes, trainers := map[], map[], map[];
    }

    // -------------------------------------------------------------------
    // Members
    // -------------------------------------------------------------------

    /** `getMembers`: all stored members, no two with the same id. */
    method GetMembers() returns (r: seq<Member>)
      requires Valid()
      ensures |r| == |members|
      ensures forall m :: m in r <==> m in members.Values
      ensures forall i, j :: 0 <= i < j < |r| ==> r[i].id != r[j].id
    {
      ghost var keys;
      r, keys := Enumerate(members);
    }

    /** `getMember`: the member stored under `id`, which carries that id. */
    function GetMember(id: string): (r: Result<Member>)
      requires Valid()
      reads this
      ensures r.Ok? <==> id in members
      ensures r.Ok? ==> r.value == members[id] && r.value.id == id
      ensures r.Err? ==> r.error == NotFound
    {
      if id in members then Ok(members[id]) else Err(NotFound)
    }

    method AddMember(payload: MemberPayload, freshId: string, now: Nat64) returns (r: Result<Member>)
      requires Valid()
      requires freshId != "" && freshId !in members
      modifies this
      ensures Valid()
      ensures classes == old(classes) && trainers == old(trainers)
      ensures r.Err? <==> !MemberPayloadValid(payload)
      ensures r.Err? ==> r.error == Validation && members == old(members)
      ensures r.Ok? ==> r.value == NewMember(freshId, now, payload)
      ensures r.Ok? ==> members == old(members)[freshId := r.value]
      ensures r.Ok? ==> GetMember(freshId) == r
      ensures forall k :: k != freshId ==> GetMember(k) == old(GetMember(k))
    {
      if payload.name == "" || payload.email == "" || payload.joinDate == "" || payload.membershipType == "" {
        return Err(Validation);
      }
      var member := NewMember(freshId, now, payload);
      members := members[member.id := member];
      r := Ok(member);
    }

    method UpdateMember(id: string, payload: MemberPatch, now: Nat64) returns (r: Result<Member>)
      requires Valid()
      modifies this
      ensures Valid()
      ensures classes == old(classes) && trainers == old(trainers)
      ensures id == "" || MemberPatchEmpty(payload) ==> r == Err(Validation)
      ensures id != "" && !MemberPatchEmpty(payload) && id !in old(members) ==> r == Err(NotFound)
      ensures r.Ok? <==> id != "" && !MemberPatchEmpty(payload) && id in old(members)
      ensures r.Err? ==> members == old(members)
      ensures r.Ok? ==> id in old(members) && r.value == MergeMember(old(members)[id], payload, now)
      ensures r.Ok? ==> members == old(members)[id := r.value]
      ensures r.Ok? ==> r.value.id == id && r.value.createdAt == old(members)[id].createdAt
                        && r.value.updatedAt == Some(now)
    {
      if id == "" {
        return Err(Validation);
      }
      if MemberPatchEmpty(payload) {
        return Err(Validation);
      }
      if id !in members {
        return Err(NotFound);
      }
      var member := members[id];
      var updated := MergeMember(member, payload, now);
      members := members[member.id := updated];
      r := Ok(updated);
    }

    method DeleteMember(id: string) returns (r: Result<Member>)
      requires Valid()
      modifies this
      ensures Valid()
      ensures classes == old(classes) && trainers == old(trainers)
      ensures r.Ok? <==> id in old(members)
      ensures r.Ok? ==> r.value == old(members)[id] && members == old(members) - {id}
      ensures r.Err? ==> r.error == NotFound && members == old(members)
      ensures GetMember(id) == Err(NotFound)
    {
      if id !in members {
        return Err(NotFound);
      }
      var deleted := members[id];
      members := members - {id};
      r := Ok(deleted);
    }

    /** `updateMembershipType` validates neither argument: an empty id is
        simply not found. */
    method UpdateMembershipType(id: string, membershipType: string, now: Nat64) returns (r: Result<Member>)
      requires Valid()
      modifies this
      ensures Valid()
      ensures classes == old(classes) && trainers == old(trainers)
      ensures r.Err? <==> id !in old(members)
      ensures r.Err? ==> r.error == NotFound && members == old(members)
      ensures r.Ok? ==> r.value == WithMembershipType(old(members)[id], membershipType, now)
      ensures r.Ok? ==> members == old(members)[id := r.value]
      ensures id == "" ==> r == Err(NotFound)
    {
      if id !in members {
        return Err(NotFound);
      }
      var member := members[id];
      var updated := WithMembershipType(member, membershipType, now);
      members := members[member.id := updated];
      r := Ok(updated);
    }

    method UpdateMemberEmail(id: string, email: string, now: Nat64) returns (r: Result<Member>)
      requires Valid()
      modifies this
      ensures Valid()
      ensures classes == old(classes) && trainers == old(trainers)
      ensures id == "" || email == "" ==> r == Err(Validation)
      ensures id != "" && email != "" && id !in old(members) ==> r == Err(NotFound)
      ensures r.Ok? <==> id != "" && email != "" && id in old(members)
      ensures r.Err? ==> members == old(members)
      ensures r.Ok? ==> id in old(members) && r.value == WithEmail(old(members)[id], email, now)
      ensures r.Ok? ==> members == old(members)[id := r.value]
    {
      if id == "" {
        return Err(Validation);
      }
      if email == "" {
        return Err(Validation);
      }
      if id !in members {
        return Err(NotFound);
      }
      var member := members[id];
      var updated := WithEmail(member, email, now);
      members := members[member.id := updated];
      r := Ok(updated);
    }

    method UpdateMemberName(id: string, name: string, now: Nat64) returns (r: Result<Member>)
      requires Valid()
      modifies this
      ensures Valid()
      ensures classes == old(classes) && trainers == old(trainers)
      ensures id == "" || name == "" ==> r == Err(Validation)
      ensures id != "" && name != "" && id !in old(members) ==> r == Err(NotFound)
      ensures r.Ok? <==> id != "" && name != "" && id in old(members)
      ensures r.Err? ==> members == old(members)
      ensures r.Ok? ==> id in old(members) && r.value == WithName(old(members)[id], name, now)
      ensures r.Ok? ==> members == old(members)[id := r.value]
    {
      if id == "" {
        return Err(Validation);
      }
      if name == "" {
        return Err(Validation);
      }
      if id !in members {
        return Err(NotFound);
      }
      var member := members[id];
      var updated := WithName(member, name, now);
      members := members[member.id := updated];
      r := Ok(updated);
    }

    // -------------------------------------------------------------------
    // Gym classes
    // -------------------------------------------------------------------

    method AddGymClass(payload: GymClassPayload, freshId: string, now: Nat64) returns (r: Result<GymClass>)
      requires Valid()
      requires freshId != "" && freshId !in classes
      modifies this
      ensures Valid()
      ensures members == old(members) && trainers == old(trainers)
      ensures r.Err? <==> !GymClassPayloadValid(payload)
      ensures r.Err? ==> r.error == Validation && classes == old(classes)
      ensures r.Ok? ==> r.value == NewGymClass(freshId, now, payload)
      ensures r.Ok? ==> classes == old(classes)[freshId := r.value]
      ensures r.Ok? ==> GetGymClass(freshId) == r
      ensures forall k :: k != freshId ==> GetGymClass(k) == old(GetGymClass(k))
    {
      if payload.name == "" || payload.startTime == "" || payload.endTime == ""
         || payload.trainerId == "" || payload.capacity == 0 {
        return Err(Validation);
      }
      var gymClass := NewGymClass(freshId, now, payload);
      classes := classes[gymClass.id := gymClass];
      r := Ok(gymClass);
    }

    /** `getGymClasses`: all stored classes, no two with the same id. */
    method GetGymClasses() returns (r: seq<GymClass>)
      requires Valid()
      ensures |r| == |classes|
      ensures forall c :: c in r <==> c in classes.Values
      ensures forall i, j :: 0 <= i < j < |r| ==> r[i].id != r[j].id
    {
      ghost var keys;
      r, keys := Enumerate(classes);
    }

    function GetGymClass(id: string): (r: Result<GymClass>)
      requires Valid()
      reads this
      ensures r.Ok? <==> id in classes
      ensures r.Ok? ==> r.value == classes[id] && r.value.id == id
      ensures r.Err? ==> r.error == NotFound
    {
      if id in classes then Ok(classes[id]) else Err(NotFound)
    }

    method UpdateGymClass(id: string, payload: GymClassPatch, now: Nat64) returns (r: Result<GymClass>)
      requires Valid()
      modifies this
      ensures Valid()
      ensures members == old(members) && trainers == old(trainers)
      ensures id == "" || GymClassPatchEmpty(payload) ==> r == Err(Validation)
      ensures id != "" && !GymClassPatchEmpty(payload) && id !in old(classes) ==> r == Err(NotFound)
      ensures r.Ok? <==> id != "" && !GymClassPatchEmpty(payload) && id in old(classes)
      ensures r.Err? ==> classes == old(classes)
      ensures r.Ok? ==> id in old(classes) && r.value == MergeGymClass(old(classes)[id], payload, now)
      ensures r.Ok? ==> classes == old(classes)[id := r.value]
      ensures r.Ok? ==> r.value.id == id && r.value.createdAt == old(classes)[id].createdAt
                        && r.value.updatedAt == Some(now)
    {
      if id == "" {
        return Err(Validation);
      }
      if GymClassPatchEmpty(payload) {
        return Err(Validation);
      }
      if id !in classes {
        return Err(NotFound);
      }
      var gymClass := classes[id];
      var updated := MergeGymClass(gymClass, payload, now);
      classes := classes[gymClass.id := updated];
      r := Ok(updated);
    }

    method DeleteGymClass(id: string) returns (r: Result<GymClass>)
      requires Valid()
      modifies this
      ensures Valid()
      ensures members == old(members) && trainers == old(trainers)
      ensures r.Ok? <==> id in old(classes)
      ensures r.Ok? ==> r.value == old(classes)[id] && classes == old(classes) - {id}
      ensures r.Err? ==> r.error == NotFound && classes == old(classes)
      ensures GetGymClass(id) == Err(NotFound)
    {
      if id !in classes {
        return Err(NotFound);
      }
      var deleted := classes[id];
      classes := classes - {id};
      r := Ok(deleted);
    }

    // -------------------------------------------------------------------
    // Trainers
    // -------------------------------------------------------------------

    method AddTrainer(payload: TrainerPayload, freshId: string, now: Nat64) returns (r: Result<Trainer>)
      requires Valid()
      requires freshId != "" && freshId !in trainers
      modifies this
      ensures Valid()
      ensures members == old(members) && classes == old(classes)
      ensures r.Err? <==> !TrainerPayloadValid(payload)
      ensures r.Err? ==> r.error == Validation && trainers == old(trainers)
      ensures r.Ok? ==> r.value == NewTrainer(freshId, now, payload)
      ensures r.Ok? ==> trainers == old(trainers)[freshId := r.value]
      ensures r.Ok? ==> GetTrainer(freshId) == r
      ensures forall k :: k != freshId ==> GetTrainer(k) == old(GetTrainer(k))
    {
      if payload.name == "" || payload.email == "" || |payload.specializations| == 0 {
        return Err(Validation);
      }
      var trainer := NewTrainer(freshId, now, payload);
      trainers := trainers[trainer.id := trainer];
      r := Ok(trainer);
    }

    /** `getTrainers`: all stored trainers, no two with the same id. */
    method GetTrainers() returns (r: seq<Trainer>)
      requires Valid()
      ensures |r| == |trainers|
      ensures forall t :: t in r <==> t in trainers.Values
      ensures forall i, j :: 0 <= i < j < |r| ==> r[i].id != r[j].id
    {
      ghost var keys;
      r, keys := Enumerate(trainers);
    }

    function GetTrainer(id: string): (r: Result<Trainer>)
      requires Valid()
      reads this
      ensures r.Ok? <==> id in trainers
      ensures r.Ok? ==> r.value == trainers[id] && r.value.id == id
      ensures r.Err? ==> r.error == NotFound
    {
      if id in trainers then Ok(trainers[id]) else Err(NotFound)
    }

    method UpdateTrainer(id: string, payload: TrainerPatch, now: Nat64) returns (r: Result<Trainer>)
      requires Valid()
      modifies this
      ensures Valid()
      ensures members == old(members) && classes == old(classes)
      ensures id == "" || TrainerPatchEmpty(payload) ==> r == Err(Validation)
      ensures id != "" && !TrainerPatchEmpty(payload) && id !in old(trainers) ==> r == Err(NotFound)
      ensures r.Ok? <==> id != "" && !TrainerPatchEmpty(payload) && id in old(trainers)
      ensures r.Err? ==> trainers == old(trainers)
      ensures r.Ok? ==> id in old(trainers) && r.value == MergeTrainer(old(trainers)[id], payload, now)
      ensures r.Ok? ==> trainers == old(trainers)[id := r.value]
      ensures r.Ok? ==> r.value.id == id && r.value.createdAt == old(trainers)[id].createdAt
                        && r.value.updatedAt == Some(now)
    {
      if id == "" {
        return Err(Validation);
      }
      if TrainerPatchEmpty(payload) {
        return Err(Validation);
      }
      if id !in trainers {
        return Err(NotFound);
      }
      var trainer := trainers[id];
      var updated := MergeTrainer(trainer, payload, now);
      trainers := trainers[trainer.id := updated];
      r := Ok(updated);
    }

    method DeleteTrainer(id: string) returns (r: Result<Trainer>)
      requires Valid()
      modifies this
      ensures Valid()
      ensures members == old(members) && classes == old(classes)
      ensures r.Ok? <==> id in old(trainers)
      ensures r.Ok? ==> r.value == old(trainers)[id] && trainers == old(trainers) - {id}
      ensures r.Err? ==> r.error == NotFound && trainers == old(trainers)
      ensures GetTrainer(id) == Err(NotFound)
    {
      if id !in trainers {
        return Err(NotFound);
      }
      var deleted := trainers[id];
      trainers := trainers - {id};
      r := Ok(deleted);
    }

    // -------------------------------------------------------------------
    // Queries
    // -------------------------------------------------------------------

    /** `searchMembers`: a blank query is invalid; otherwise exactly the
        stored members whose lower-cased name or email contains the
        lower-cased, untrimmed query. */
    method SearchMembers(query: string) returns (r: Result<seq<Member>>)
      requires Valid()
      ensures r.Err? <==> Text.IsBlank(query)
      ensures r.Err? ==> r.error == Validation
      ensures r.Ok? ==> forall m :: m in r.value <==> m in members.Values && Queries.MatchesQuery(m, query)
      ensures r.Ok? ==> forall i, j :: 0 <= i < j < |r.value| ==> r.value[i].id != r.value[j].id
    {
      var snapshot := GetMembers();
      r := Queries.SearchMembers(snapshot, query);
      if r.Ok? {
        SubBagKeepsDistinctKeys(r.value, snapshot, (m: Member) => m.id);
      }
    }

    /** `filterGymClassesByStartTime`: an empty argument is invalid;
        otherwise exactly the stored classes starting at that time. */
    method FilterGymClassesByStartTime(startTime: string) returns (r: Result<seq<GymClass>>)
      requires Valid()
      ensures r.Err? <==> startTime == ""
      ensures r.Err? ==> r.error == Validation
      ensures r.Ok? ==> forall c :: c in r.value <==> c in classes.Values && c.startTime == startTime
      ensures r.Ok? ==> forall i, j :: 0 <= i < j < |r.value| ==> r.value[i].id != r.value[j].id
    {
      var snapshot := GetGymClasses();
      r := Queries.FilterGymClassesByStartTime(snapshot, startTime);
      if r.Ok? {
        SubBagKeepsDistinctKeys(r.value, snapshot, (c: GymClass) => c.id);
      }
    }

    /** `checkTrainerAvailability`, with the unknown-trainer error the
        source intends (see `Queries.CheckTrainerAvailabilityAsWritten`). */
    method CheckTrainerAvailability(trainerId: string, startTime: string, endTime: string) returns (r: Result<bool>)
      requires Valid()
      ensures r == Err(Validation) <==> trainerId == "" || startTime == "" || endTime == ""
      ensures r == Err(NotFound) <==> trainerId != "" && startTime != "" && endTime != "" && trainerId !in trainers
      ensures r.Ok? ==> (r.value <==> forall c :: c in classes.Values ==> !Queries.Conflicts(c, trainerId, startTime, endTime))
    {
      var snapshot := GetGymClasses();
      r := Queries.CheckTrainerAvailability(trainers, snapshot, trainerId, startTime, endTime);
    }
  }

  /** A member's life: added, given a new membership type, renamed,
      deleted, and then no longer found.  The deleted record carries every
      change, and the storage ends as it began. */
  method MemberLifecycle(store: GymStore, freshId: string, t0: Nat64, t1: Nat64) returns (deleted: Result<Member>)
    requires store.Valid() && freshId != "" && freshId !in store.members
    modifies store
    ensures store.Valid()
    ensures deleted.Ok? && deleted.value.id == freshId && deleted.value.createdAt == t0
    ensures deleted.value.name == "Joanna" && deleted.value.membershipType == "platinum"
    ensures deleted.value.email == "jo@x.com" && deleted.value.updatedAt == Some(t1)
    ensures store.members == old(store.members)
    ensures store.classes == old(store.classes) && store.trainers == old(store.trainers)
  {
    var added := store.AddMember(MemberPayload("Jo", "jo@x.com", "2024-01-01", "gold"), freshId, t0);
    assert added.Ok? && added.value.id == freshId && added.value.updatedAt == None;
    var updated := store.UpdateMembershipType(freshId, "platinum", t1);
    assert updated.Ok? && updated.value.membershipType == "platinum" && updated.value.updatedAt.Some?;
    var renamed := store.UpdateMemberName(freshId, "Joanna", t1);
    assert renamed.Ok? && renamed.value.name == "Joanna" && renamed.value.membershipType == "platinum";
    deleted := store.DeleteMember(freshId);
    assert deleted == renamed;
    assert store.GetMember(freshId) == Err(NotFound);
    assert store.members == old(store.members)[freshId := renamed.value] - {freshId};
  }
}
