/** The read-only derived views: member search, the start-time filter over
    gym classes and the trainer availability check.  Each works on a
    snapshot of a collection's values, in whatever order the collection
    lists them. */
module Queries {
  import opened Results
  import opened Entities
  import opened Text

  /** `r` is `s` with some elements left out, the rest in their order. */
  predicate IsSubsequence<T(==)>(r: seq<T>, s: seq<T>)
  {
    if r == [] then true
    else if s == [] then false
    else (r[0] == s[0] && IsSubsequence(r[1..], s[1..])) || IsSubsequence(r, s[1..])
  }

  /** `s.filter(p)`: the elements of `s` that satisfy `p`, each as often as
      it occurs in `s` and in the order of `s`. */
  function Filter<T(!new, ==)>(s: seq<T>, p: T -> bool): (r: seq<T>)
    ensures forall x :: x in r <==> x in s && p(x)
    ensures forall x :: multiset(r)[x] == if p(x) then multiset(s)[x] else 0
    ensures IsSubsequence(r, s)
  {
    if s == [] then []
    else
      var rest := Filter(s[1..], p);
      assert s == [s[0]] + s[1..];
      if p(s[0]) then [s[0]] + rest else rest
  }

  // ---------------------------------------------------------------------
  // searchMembers
  // ---------------------------------------------------------------------

  /** The lower-cased name or email contains the lower-cased query.  The
      query is lower-cased but not trimmed. */
  predicate MatchesQuery(m: Member, query: string)
    ensures query == "" ==> MatchesQuery(m, query)
    ensures MatchesQuery(m, query) ==> |query| <= |m.name| || |query| <= |m.email|
  {
    Includes(ToLower(m.name), ToLower(query)) || Includes(ToLower(m.email), ToLower(query))
  }

  /** The search predicate as the value passed to `filter`. */
  function QueryMatcher(query: string): Member -> bool
  {
    m => MatchesQuery(m, query)
  }

  function SearchMembers(members: seq<Member>, query: string): (r: Result<seq<Member>>)
    ensures r.Err? <==> IsBlank(query)
    ensures r.Err? ==> r.error == Validation
    ensures r.Ok? ==> forall m :: m in r.value <==> m in members && MatchesQuery(m, query)
    ensures r.Ok? ==> multiset(r.value) <= multiset(members)
    ensures r.Ok? ==> forall m :: multiset(r.value)[m] == if MatchesQuery(m, query) then multiset(members)[m] else 0
    ensures r.Ok? ==> IsSubsequence(r.value, members)
  {
    if query == "" || Trim(query) == "" then Err(Validation)
    else Ok(Filter(members, QueryMatcher(query)))
  }

  /** The search is case-insensitive: lower-casing the query first changes
      nothing. */
  lemma {:induction false} MatchesQueryCaseInsensitive(m: Member, query: string)
    ensures MatchesQuery(m, ToLower(query)) == MatchesQuery(m, query)
  {
    ToLowerIdempotent(query);
  }

  // ---------------------------------------------------------------------
  // filterGymClassesByStartTime
  // ---------------------------------------------------------------------

  function FilterGymClassesByStartTime(classes: seq<GymClass>, startTime: string): (r: Result<seq<GymClass>>)
    ensures r.Err? <==> startTime == ""
    ensures r.Err? ==> r.error == Validation
    ensures r.Ok? ==> forall c :: c in r.value <==> c in classes && c.startTime == startTime
    ensures r.Ok? ==> multiset(r.value) <= multiset(classes)
    ensures r.Ok? ==> forall c :: multiset(r.value)[c] == if c.startTime == startTime then multiset(classes)[c] else 0
    ensures r.Ok? ==> IsSubsequence(r.value, classes)
  {
    if startTime == "" then Err(Validation)
    else Ok(Filter(classes, (c: GymClass) => c.startTime == startTime))
  }

  // ---------------------------------------------------------------------
  // checkTrainerAvailability
  // ---------------------------------------------------------------------

  /** A class of the trainer whose own start time or own end time lies in
      the window [startTime, endTime], with JavaScript's string order and
      inclusive bounds. */
  predicate Conflicts(c: GymClass, trainerId: string, startTime: string, endTime: string)
    ensures c.trainerId != trainerId ==> !Conflicts(c, trainerId, startTime, endTime)
    ensures c.trainerId == trainerId && LexLe(startTime, endTime) && (c.startTime == startTime || c.endTime == endTime)
            ==> Conflicts(c, trainerId, startTime, endTime)
  {
    LexLeReflexive(startTime);
    LexLeReflexive(endTime);
    && c.trainerId == trainerId
    && (|| (LexLe(startTime, c.startTime) && LexLe(c.startTime, endTime))
        || (LexLe(startTime, c.endTime) && LexLe(c.endTime, endTime)))
  }

  /** The availability check with the trainer-existence test it evidently
      intends: an unknown trainer is a NotFound error. */
  function CheckTrainerAvailability(trainers: map<string, Trainer>, classes: seq<GymClass>,
                                    trainerId: string, startTime: string, endTime: string): (r: Result<bool>)
    ensures r == Err(Validation) <==> trainerId == "" || startTime == "" || endTime == ""
    ensures r == Err(NotFound) <==> trainerId != "" && startTime != "" && endTime != "" && trainerId !in trainers
    ensures r.Ok? ==> (r.value <==> forall c :: c in classes ==> !Conflicts(c, trainerId, startTime, endTime))
  {
    if trainerId == "" then Err(Validation)
    else if startTime == "" || endTime == "" then Err(Validation)
    else if trainerId !in trainers then Err(NotFound)
    else
      var conflicting := Filter(classes, c => Conflicts(c, trainerId, startTime, endTime));
      assert forall c :: c in conflicting <==> c in classes && Conflicts(c, trainerId, startTime, endTime);
      Ok(|conflicting| == 0)
  }

  /** The check as written.  `trainerStorage.get(trainerId)` yields an Azle
      `Opt`, which is an object whether or not the key is present, and every
      object is truthy in JavaScript; so the `else` branch that reports an
      unknown trainer can never run, and an unknown trainer is "available"
      whenever no class names it. */
  function CheckTrainerAvailabilityAsWritten(trainers: map<string, Trainer>, classes: seq<GymClass>,
                                             trainerId: string, startTime: string, endTime: string): (r: Result<bool>)
    ensures r.Err? <==> trainerId == "" || startTime == "" || endTime == ""
    ensures r.Err? ==> r.error == Validation
    ensures r.Ok? ==> (r.value <==> forall c :: c in classes ==> !Conflicts(c, trainerId, startTime, endTime))
  {
    if trainerId == "" then Err(Validation)
    else if startTime == "" || endTime == "" then Err(Validation)
    else
      var conflicting := Filter(classes, c => Conflicts(c, trainerId, startTime, endTime));
      assert forall c :: c in conflicting <==> c in classes && Conflicts(c, trainerId, startTime, endTime);
      Ok(|conflicting| == 0)
  }

  /** The input that shows the discrepancy: no trainers at all, and the
      written check still answers "available". */
  lemma MissingTrainerReportedAvailable()
    ensures CheckTrainerAvailabilityAsWritten(map[], [], "missing-id", "09:00", "10:00") == Ok(true)
    ensures CheckTrainerAvailability(map[], [], "missing-id", "09:00", "10:00") == Err(NotFound)
  {
  }

  /** The two checks agree on every known trainer and on every invalid input. */
  lemma AsWrittenAgreesOnKnownTrainers(trainers: map<string, Trainer>, classes: seq<GymClass>,
                                       trainerId: string, startTime: string, endTime: string)
    requires trainerId in trainers || trainerId == "" || startTime == "" || endTime == ""
    ensures CheckTrainerAvailabilityAsWritten(trainers, classes, trainerId, startTime, endTime)
         == CheckTrainerAvailability(trainers, classes, trainerId, startTime, endTime)
  {
  }

  /** Every reported conflict is a genuine overlap of the class's window
      with the queried one (for a class that does not end before it starts). */
  lemma {:induction false} ConflictIsOverlap(c: GymClass, trainerId: string, startTime: string, endTime: string)
    requires LexLe(c.startTime, c.endTime)
    requires Conflicts(c, trainerId, startTime, endTime)
    ensures LexLe(startTime, c.endTime) && LexLe(c.startTime, endTime)
  {
    if LexLe(startTime, c.startTime) && LexLe(c.startTime, endTime) {
      LexLeTransitive(startTime, c.startTime, c.endTime);
    } else {
      LexLeTransitive(c.startTime, c.endTime, endTime);
    }
  }

  /** The check is one-sided: a class whose window strictly contains the
      queried one overlaps it but is not a conflict. */
  lemma {:induction false} ContainingClassNotConflict(c: GymClass, trainerId: string, startTime: string, endTime: string)
    requires LexLt(c.startTime, startTime) && LexLt(endTime, c.endTime)
    ensures !Conflicts(c, trainerId, startTime, endTime)
  {
    if LexLe(startTime, c.startTime) {
      LexLeAntisymmetric(startTime, c.startTime);
    }
    if LexLe(c.endTime, endTime) {
      LexLeAntisymmetric(c.endTime, endTime);
    }
  }

  /** A window that ends before it starts contains no time at all, so no
      class conflicts with it. */
  lemma {:induction false} InvertedWindowHasNoConflict(c: GymClass, trainerId: string, startTime: string, endTime: string)
    requires LexLt(endTime, startTime)
    ensures !Conflicts(c, trainerId, startTime, endTime)
  {
    if LexLe(startTime, c.startTime) && LexLe(c.startTime, endTime) {
      LexLeTransitive(startTime, c.startTime, endTime);
      LexLeAntisymmetric(startTime, endTime);
    }
    if LexLe(startTime, c.endTime) && LexLe(c.endTime, endTime) {
      LexLeTransitive(startTime, c.endTime, endTime);
      LexLeAntisymmetric(startTime, endTime);
    }
  }

  /** The two availability answers for a trainer "t" and the window
      09:00-10:00: a class starting at 09:30 is a conflict, a class running
      08:00-11:00 is not. */
  lemma AvailabilityExamples(trainers: map<string, Trainer>, a: GymClass, b: GymClass,
                             start: string, end: string)
    requires "t" in trainers
    requires start == "09:00" && end == "10:00"
    requires a.trainerId == "t" && a.startTime == "09:30" && a.endTime == "10:30"
    requires b.trainerId == "t" && b.startTime == "08:00" && b.endTime == "11:00"
    ensures CheckTrainerAvailability(trainers, [a], "t", start, end) == Ok(false)
    ensures CheckTrainerAvailability(trainers, [b], "t", start, end) == Ok(true)
  {
    FirstDifferenceDecides(start, a.startTime, 3);
    FirstDifferenceDecides(a.startTime, end, 0);
    assert Conflicts(a, "t", start, end);
    FirstDifferenceDecides(b.startTime, start, 1);
    FirstDifferenceDecides(end, b.endTime, 1);
    ContainingClassNotConflict(b, "t", start, end);
    assert [a][1..] == [] && [b][1..] == [];
  }

  /** "alice" matches "Alice Smith" by name and "bob@alice.org" by email. */
  lemma AliceMatches(alice: Member, bob: Member, query: string)
    requires alice.name == "Alice Smith" && bob.email == "bob@alice.org"
    requires query == "alice"
    ensures MatchesQuery(alice, query) && MatchesQuery(bob, query)
  {
    var q := ToLower(query);
    assert q == query by {
      assert q[0] == 'a' && q[1] == 'l' && q[2] == 'i' && q[3] == 'c' && q[4] == 'e';
    }
    var n := ToLower(alice.name);
    assert n[0..5] == query by {
      assert n[0] == 'a' && n[1] == 'l' && n[2] == 'i' && n[3] == 'c' && n[4] == 'e';
    }
    OccursAtIncludes(n, q, 0);
    var e := ToLower(bob.email);
    assert e[4..9] == query by {
      assert e[4] == 'a' && e[5] == 'l' && e[6] == 'i' && e[7] == 'c' && e[8] == 'e';
    }
    OccursAtIncludes(e, q, 4);
  }

  /** Searching for "alice" finds a name match and an email match. */
  lemma SearchExample(alice: Member, bob: Member, query: string)
    requires alice.name == "Alice Smith" && alice.email == "a@x.com"
    requires bob.name == "Bob" && bob.email == "bob@alice.org"
    requires query == "alice"
    ensures SearchMembers([alice, bob], query) == Ok([alice, bob])
  {
    AliceMatches(alice, bob, query);
    assert !IsBlank(query) by { assert !IsSpace(query[0]); }
    var p := QueryMatcher(query);
    assert p(alice) && p(bob);
    assert [alice, bob][1..] == [bob] && [bob][1..] == [];
    assert Filter([bob], p) == [bob];
    assert Filter([alice, bob], p) == [alice] + Filter([bob], p);
    assert [alice] + [bob] == [alice, bob];
    assert SearchMembers([alice, bob], query) == Ok(Filter([alice, bob], p));
  }
}
