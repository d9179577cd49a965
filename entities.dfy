/** The three record kinds of the gym service (members, gym classes,
    trainers), the payloads callers supply to create and update them, the
    "add" validation rules and the update merges. */
module Entities {
  import opened Results

  /** The host clock's `nat64` timestamps. */
  newtype Nat64 = x: int | 0 <= x < 0x1_0000_0000_0000_0000

  // ---------------------------------------------------------------------
  // Records and payloads
  // ---------------------------------------------------------------------

  datatype Member = Member(
    id: string,
    name: string,
    email: string,
    joinDate: string,
    membershipType: string,
    createdAt: Nat64,
    updatedAt: Option<Nat64>)

  datatype MemberPayload = MemberPayload(
    name: string,
    email: string,
    joinDate: string,
    membershipType: string)

  datatype GymClass = GymClass(
    id: string,
    name: string,
    description: string,
    startTime: string,
    endTime: string,
    trainerId: string,
    capacity: int,
    createdAt: Nat64,
    updatedAt: Option<Nat64>)

  datatype GymClassPayload = GymClassPayload(
    name: string,
    description: string,
    startTime: string,
    endTime: string,
    trainerId: string,
    capacity: int)

  datatype Trainer = Trainer(
    id: string,
    name: string,
    email: string,
    specializations: seq<string>,
    createdAt: Nat64,
    updatedAt: Option<Nat64>)

  datatype TrainerPayload = TrainerPayload(
    name: string,
    email: string,
    specializations: seq<string>)

  /** The payload object of a full update.  It is spread over the stored
      record, so only the keys it actually carries overwrite anything: a
      `Some` field is a key that is present, `None` one that is absent. */
  datatype MemberPatch = MemberPatch(
    name: Option<string>,
    email: Option<string>,
    joinDate: Option<string>,
    membershipType: Option<string>)

  datatype GymClassPatch = GymClassPatch(
    name: Option<string>,
    description: Option<string>,
    startTime: Option<string>,
    endTime: Option<string>,
    trainerId: Option<string>,
    capacity: Option<int>)

  datatype TrainerPatch = TrainerPatch(
    name: Option<string>,
    email: Option<string>,
    specializations: Option<seq<string>>)

  /** The payload part of a stored record (everything but the id and the
      timestamps). */
  function MemberPayloadOf(m: Member): MemberPayload
  {
    MemberPayload(m.name, m.email, m.joinDate, m.membershipType)
  }

  function GymClassPayloadOf(c: GymClass): GymClassPayload
  {
    GymClassPayload(c.name, c.description, c.startTime, c.endTime, c.trainerId, c.capacity)
  }

  function TrainerPayloadOf(t: Trainer): TrainerPayload
  {
    TrainerPayload(t.name, t.email, t.specializations)
  }

  /** A payload given in full to an update, every key present. */
  function MemberPatchOf(p: MemberPayload): MemberPatch
  {
    MemberPatch(Some(p.name), Some(p.email), Some(p.joinDate), Some(p.membershipType))
  }

  function GymClassPatchOf(p: GymClassPayload): GymClassPatch
  {
    GymClassPatch(Some(p.name), Some(p.description), Some(p.startTime), Some(p.endTime),
                  Some(p.trainerId), Some(p.capacity))
  }

  function TrainerPatchOf(p: TrainerPayload): TrainerPatch
  {
    TrainerPatch(Some(p.name), Some(p.email), Some(p.specializations))
  }

  // ---------------------------------------------------------------------
  // Validation
  // ---------------------------------------------------------------------

  /** `addMember` demands all four fields non-empty. */
  predicate MemberPayloadValid(p: MemberPayload)
  {
    p.name != "" && p.email != "" && p.joinDate != "" && p.membershipType != ""
  }

  /** `addGymClass` demands a non-empty name, start time, end time and
      trainer id and a non-zero capacity; the description is not checked. */
  predicate GymClassPayloadValid(p: GymClassPayload)
  {
    p.name != "" && p.startTime != "" && p.endTime != "" && p.trainerId != "" && p.capacity != 0
  }

  /** `addTrainer` demands a non-empty name and email and at least one
      specialization. */
  predicate TrainerPayloadValid(p: TrainerPayload)
  {
    p.name != "" && p.email != "" && |p.specializations| != 0
  }

  /** An update payload with no keys at all (`Object.keys(payload).length === 0`). */
  predicate MemberPatchEmpty(p: MemberPatch)
    ensures MemberPatchEmpty(p) ==> forall x: Member, now: Nat64 :: MergeMember(x, p, now) == x.(updatedAt := Some(now))
  {
    p.name.None? && p.email.None? && p.joinDate.None? && p.membershipType.None?
  }

  predicate GymClassPatchEmpty(p: GymClassPatch)
    ensures GymClassPatchEmpty(p) ==> forall x: GymClass, now: Nat64 :: MergeGymClass(x, p, now) == x.(updatedAt := Some(now))
  {
    && p.name.None? && p.description.None? && p.startTime.None? && p.endTime.None?
    && p.trainerId.None? && p.capacity.None?
  }

  predicate TrainerPatchEmpty(p: TrainerPatch)
    ensures TrainerPatchEmpty(p) ==> forall x: Trainer, now: Nat64 :: MergeTrainer(x, p, now) == x.(updatedAt := Some(now))
  {
    p.name.None? && p.email.None? && p.specializations.None?
  }

  // ---------------------------------------------------------------------
  // Creation: `{ id: uuidv4(), createdAt: ic.time(), updatedAt: None, ...payload }`
  // ---------------------------------------------------------------------

  function NewMember(id: string, now: Nat64, p: MemberPayload): (m: Member)
    ensures m.id == id && m.createdAt == now && m.updatedAt == None
    ensures MemberPayloadOf(m) == p
  {
    Member(id, p.name, p.email, p.joinDate, p.membershipType, now, None)
  }

  function NewGymClass(id: string, now: Nat64, p: GymClassPayload): (c: GymClass)
    ensures c.id == id && c.createdAt == now && c.updatedAt == None
    ensures GymClassPayloadOf(c) == p
  {
    GymClass(id, p.name, p.description, p.startTime, p.endTime, p.trainerId, p.capacity, now, None)
  }

  function NewTrainer(id: string, now: Nat64, p: TrainerPayload): (t: Trainer)
    ensures t.id == id && t.createdAt == now && t.updatedAt == None
    ensures TrainerPayloadOf(t) == p
  {
    Trainer(id, p.name, p.email, p.specializations, now, None)
  }

  // ---------------------------------------------------------------------
  // Full update: `{ ...record, ...payload, updatedAt: Some(ic.time()) }`
  // ---------------------------------------------------------------------

  /** Every key the payload carries overwrites the stored field, every other
      field keeps its stored value; the id and the creation time are never
      payload keys, so they survive, and the update time becomes `now`. */
  function MergeMember(m: Member, p: MemberPatch, now: Nat64): (r: Member)
    ensures r.id == m.id && r.createdAt == m.createdAt && r.updatedAt == Some(now)
    ensures r.name == (if p.name.Some? then p.name.value else m.name)
    ensures r.email == (if p.email.Some? then p.email.value else m.email)
    ensures r.joinDate == (if p.joinDate.Some? then p.joinDate.value else m.joinDate)
    ensures r.membershipType == (if p.membershipType.Some? then p.membershipType.value else m.membershipType)
  {
    m.(name := p.name.GetOr(m.name),
       email := p.email.GetOr(m.email),
       joinDate := p.joinDate.GetOr(m.joinDate),
       membershipType := p.membershipType.GetOr(m.membershipType),
       updatedAt := Some(now))
  }

  function MergeGymClass(c: GymClass, p: GymClassPatch, now: Nat64): (r: GymClass)
    ensures r.id == c.id && r.createdAt == c.createdAt && r.updatedAt == Some(now)
    ensures r.name == (if p.name.Some? then p.name.value else c.name)
    ensures r.description == (if p.description.Some? then p.description.value else c.description)
    ensures r.startTime == (if p.startTime.Some? then p.startTime.value else c.startTime)
    ensures r.endTime == (if p.endTime.Some? then p.endTime.value else c.endTime)
    ensures r.trainerId == (if p.trainerId.Some? then p.trainerId.value else c.trainerId)
    ensures r.capacity == (if p.capacity.Some? then p.capacity.value else c.capacity)
  {
    c.(name := p.name.GetOr(c.name),
       description := p.description.GetOr(c.description),
       startTime := p.startTime.GetOr(c.startTime),
       endTime := p.endTime.GetOr(c.endTime),
       trainerId := p.trainerId.GetOr(c.trainerId),
       capacity := p.capacity.GetOr(c.capacity),
       updatedAt := Some(now))
  }

  function MergeTrainer(t: Trainer, p: TrainerPatch, now: Nat64): (r: Trainer)
    ensures r.id == t.id && r.createdAt == t.createdAt && r.updatedAt == Some(now)
    ensures r.name == (if p.name.Some? then p.name.value else t.name)
    ensures r.email == (if p.email.Some? then p.email.value else t.email)
    ensures r.specializations == (if p.specializations.Some? then p.specializations.value else t.specializations)
  {
    t.(name := p.name.GetOr(t.name),
       email := p.email.GetOr(t.email),
       specializations := p.specializations.GetOr(t.specializations),
       updatedAt := Some(now))
  }

  /** A payload given in full replaces the whole payload part of the record:
      the result is the record as if created with that payload, plus the
      update time. */
  lemma MergeFullPayload(m: Member, c: GymClass, t: Trainer, pm: MemberPayload,
                         pc: GymClassPayload, pt: TrainerPayload, now: Nat64)
    ensures MergeMember(m, MemberPatchOf(pm), now) == NewMember(m.id, m.createdAt, pm).(updatedAt := Some(now))
    ensures MergeGymClass(c, GymClassPatchOf(pc), now) == NewGymClass(c.id, c.createdAt, pc).(updatedAt := Some(now))
    ensures MergeTrainer(t, TrainerPatchOf(pt), now) == NewTrainer(t.id, t.createdAt, pt).(updatedAt := Some(now))
  {
  }

  // ---------------------------------------------------------------------
  // Single-field member updates: `{ ...member, field, updatedAt: Some(ic.time()) }`
  // ---------------------------------------------------------------------

  function WithMembershipType(m: Member, membershipType: string, now: Nat64): (r: Member)
    ensures r.id == m.id && r.createdAt == m.createdAt && r.updatedAt == Some(now)
    ensures MemberPayloadOf(r) == MemberPayloadOf(m).(membershipType := membershipType)
  {
    m.(membershipType := membershipType, updatedAt := Some(now))
  }

  function WithEmail(m: Member, email: string, now: Nat64): (r: Member)
    ensures r.id == m.id && r.createdAt == m.createdAt && r.updatedAt == Some(now)
    ensures MemberPayloadOf(r) == MemberPayloadOf(m).(email := email)
  {
    m.(email := email, updatedAt := Some(now))
  }

  function WithName(m: Member, name: string, now: Nat64): (r: Member)
    ensures r.id == m.id && r.createdAt == m.createdAt && r.updatedAt == Some(now)
    ensures MemberPayloadOf(r) == MemberPayloadOf(m).(name := name)
  {
    m.(name := name, updatedAt := Some(now))
  }

  /** Each single-field update is a full update whose payload carries that
      one key, so it keeps the id and creation time like every update. */
  lemma SingleFieldUpdatesArePatches(m: Member, value: string, now: Nat64)
    ensures WithMembershipType(m, value, now) == MergeMember(m, MemberPatch(None, None, None, Some(value)), now)
    ensures WithEmail(m, value, now) == MergeMember(m, MemberPatch(None, Some(value), None, None), now)
    ensures WithName(m, value, now) == MergeMember(m, MemberPatch(Some(value), None, None, None), now)
  {
  }
}
