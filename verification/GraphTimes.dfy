/**
 The search compares times as the texts they are stored as (runtime/engram/src/graph_sqlite.rs); the graph
 compares them as numbers. This module says that the two agree, row by row.
 */
module GraphTimes {
  import opened Wrappers
  import opened Hex
  import opened TextOrder
  import opened Graph

  /** The clause of the search's SQL, on texts. */
  predicate TextAdmitted(validFrom: Text, invalidAt: Option<Text>, at: Text) {
    !Before(at, validFrom) && (invalidAt.None? || Before(at, invalidAt.value))
  }

  /** A way to count time that agrees with the calendar. */
  ghost predicate Counts(clock: Stamp -> Time) {
    forall s: Stamp, t: Stamp | s.Valid() && t.Valid() :: Sooner(s, t) <==> clock(s) < clock(t)
  }

  /** However time is counted, the clause on the stored texts admits exactly what the graph's clause admits on
      the numbers, up to the year 9999. */
  lemma TextClauseIsTheClause(clock: Stamp -> Time, from: Stamp, end: Option<Stamp>, at: Stamp, rel: Relationship)
    requires Counts(clock) && from.Valid() && at.Valid() && (end.Some? ==> end.value.Valid())
    requires rel.validFrom == clock(from)
    requires rel.invalidAt == if end.Some? then Some(clock(end.value)) else None
    ensures TextAdmitted(Rfc3339(from), if end.Some? then Some(Rfc3339(end.value)) else None, Rfc3339(at))
        <==> rel.Admitted(Some(clock(at)))
  {
    TextOrderIsTimeOrder(at, from);
    if end.Some? {
      TextOrderIsTimeOrder(at, end.value);
    }
  }

  /** One such way: the calendar's digits read as one number. */
  function Digits(s: Stamp): Time {
    var minutes := (((s.year * 100 + s.month) * 100 + s.day) * 100 + s.hour) * 100 + s.minute;
    (((minutes * 100 + s.second) * 1000 + s.milli) * 1000 + s.micro) * 1000 + s.nano
  }

  predicate EarlierMinute(s: Stamp, t: Stamp) {
    || s.year < t.year
    || (s.year == t.year
        && (|| s.month < t.month
            || (s.month == t.month
                && (|| s.day < t.day
                    || (s.day == t.day
                        && (s.hour < t.hour || (s.hour == t.hour && s.minute < t.minute)))))))
  }

  lemma EarlierIs(s: Stamp, t: Stamp)
    ensures Earlier(s.DateAndTime(), t.DateAndTime()) <==> EarlierMinute(s, t)
  {
    var f, g := s.DateAndTime(), t.DateAndTime();
    var f1, g1 := f[1..], g[1..];
    var f2, g2 := f1[1..], g1[1..];
    var f3, g3 := f2[1..], g2[1..];
    var f4, g4 := f3[1..], g3[1..];
    assert f4[1..] == [] && g4[1..] == [];
    assert Earlier(f4, g4) <==> s.minute < t.minute;
    assert Earlier(f3, g3) <==> s.hour < t.hour || (s.hour == t.hour && Earlier(f4, g4));
    assert Earlier(f2, g2) <==> s.day < t.day || (s.day == t.day && Earlier(f3, g3));
    assert Earlier(f1, g1) <==> s.month < t.month || (s.month == t.month && Earlier(f2, g2));
  }

  lemma DigitsCount()
    ensures Counts(Digits)
  {
    forall s: Stamp, t: Stamp | s.Valid() && t.Valid() ensures Sooner(s, t) <==> Digits(s) < Digits(t) {
      EarlierIs(s, t);
    }
  }
}
