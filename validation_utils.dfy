/**
 * Bean-validation helpers: running a validator over one bean or over every
 * element of an iterable and throwing a ConstraintViolationException when
 * anything is violated, and turning violations or field errors into a
 * field-to-message map.
 *
 * The validation engine is a parameter: `validator(x)` is the set of
 * violations it reports for `x` (under the requested groups), listed in that
 * set's iteration order. Violations are compared with `==`, as the engine's
 * `equals` compares them.
 */
module ValidationUtils {
  import opened Wrappers

  /** A Spring `FieldError`: the rejected field and its (nullable) default message. */
  datatype FieldError = FieldError(field: string, defaultMessage: Option<string>)

  /** A constraint violation as the error map sees it: its property path and message. */
  datatype ConstraintViolation = ConstraintViolation(propertyPath: string, message: string)

  /** How a validation call ends: normally, or by throwing the violations it collected. */
  datatype Validation<V> = Passed | ConstraintViolationException(violations: seq<V>)

  /** The argument of `validate(Object, groups)`: a single bean, or an iterable of beans. */
  datatype Argument<T> = Bean(obj: T) | Beans(objs: seq<T>)

  // ---------------------------------------------------------------------------
  // The error maps
  // ---------------------------------------------------------------------------

  /** The map a `HashMap` holds after `put(k, v)` of every entry, in order. */
  function PutAll<K(==), V>(entries: seq<(K, V)>): map<K, V>
  {
    if entries == [] then map[]
    else
      var last := entries[|entries| - 1];
      PutAll(entries[..|entries| - 1])[last.0 := last.1]
  }

  /** The keys put by `entries`. */
  function KeysOf<K(==), V>(entries: seq<(K, V)>): set<K>
  {
    set i | 0 <= i < |entries| :: entries[i].0
  }

  /** No later entry puts the key of entry `i` again. */
  predicate LastPut<K(==), V>(entries: seq<(K, V)>, i: int)
    requires 0 <= i < |entries|
  {
    forall j | i < j < |entries| :: entries[j].0 != entries[i].0
  }

  /** No two entries put the same key. */
  predicate DistinctKeys<K(==), V>(entries: seq<(K, V)>)
  {
    forall i, j | 0 <= i < j < |entries| :: entries[i].0 != entries[j].0
  }

  /** Exactly the keys that were put are in the map. */
  lemma {:induction false} PutAllKeys<K, V>(entries: seq<(K, V)>)
    ensures PutAll(entries).Keys == KeysOf(entries)
  {
    if entries != [] {
      var init := entries[..|entries| - 1];
      PutAllKeys(init);
      assert KeysOf(entries) == KeysOf(init) + {entries[|entries| - 1].0} by {
        forall k | k in KeysOf(entries) ensures k in KeysOf(init) + {entries[|entries| - 1].0} {
          var i :| 0 <= i < |entries| && entries[i].0 == k;
          if i < |init| { assert init[i] == entries[i]; }
        }
        forall k | k in KeysOf(init) ensures k in KeysOf(entries) {
          var i :| 0 <= i < |init| && init[i].0 == k;
          assert entries[i] == init[i];
        }
      }
    }
  }

  /** The last write wins: each key maps to the value of the last entry that put it. */
  lemma {:induction false} PutAllLastWins<K, V>(entries: seq<(K, V)>, i: int)
    requires 0 <= i < |entries| && LastPut(entries, i)
    ensures entries[i].0 in PutAll(entries) && PutAll(entries)[entries[i].0] == entries[i].1
  {
    var init := entries[..|entries| - 1];
    if i < |init| {
      assert init[i] == entries[i];
      assert LastPut(init, i) by {
        forall j | i < j < |init| ensures init[j].0 != init[i].0 {
          assert init[j] == entries[j];
        }
      }
      PutAllLastWins(init, i);
    }
  }

  /** Putting one more entry adds its key exactly when that key is new. */
  lemma PutAllSizeStep<K, V>(init: seq<(K, V)>, last: (K, V))
    ensures |PutAll(init + [last])| == if last.0 in KeysOf(init) then |PutAll(init)| else |PutAll(init)| + 1
  {
    assert (init + [last])[..|init|] == init;
    PutAllKeys(init);
    var m := PutAll(init);
    assert PutAll(init + [last]).Keys == m.Keys + {last.0};
  }

  /** Keys stay distinct after one more entry exactly when its key is new. */
  lemma DistinctKeysSnoc<K, V>(init: seq<(K, V)>, last: (K, V))
    ensures DistinctKeys(init + [last]) <==> DistinctKeys(init) && last.0 !in KeysOf(init)
  {
    var entries := init + [last];
    if DistinctKeys(entries) {
      forall i, j | 0 <= i < j < |init| ensures init[i].0 != init[j].0 {
        assert init[i] == entries[i] && init[j] == entries[j];
      }
      forall i | 0 <= i < |init| ensures init[i].0 != last.0 {
        assert entries[i] == init[i] && entries[|init|] == last;
      }
    }
    if DistinctKeys(init) && last.0 !in KeysOf(init) {
      forall i, j | 0 <= i < j < |entries| ensures entries[i].0 != entries[j].0 {
        assert entries[i] == init[i];
        if j < |init| {
          assert init[j] == entries[j];
        } else {
          assert entries[i].0 in KeysOf(init);
        }
      }
    }
  }

  /** The map never has more keys than there were entries, and has as many exactly when no key repeats. */
  lemma {:induction false} PutAllSize<K, V>(entries: seq<(K, V)>)
    ensures |PutAll(entries)| <= |entries|
    ensures |PutAll(entries)| == |entries| <==> DistinctKeys(entries)
  {
    if entries != [] {
      var init := entries[..|entries| - 1];
      var last := entries[|entries| - 1];
      assert entries == init + [last];
      PutAllSize(init);
      PutAllSizeStep(init, last);
      DistinctKeysSnoc(init, last);
    }
  }

  /** The entries `mapWithFieldError` puts: field to default message. */
  function FieldEntries(fieldErrors: seq<FieldError>): seq<(string, Option<string>)>
  {
    seq(|fieldErrors|, i requires 0 <= i < |fieldErrors| => (fieldErrors[i].field, fieldErrors[i].defaultMessage))
  }

  /** The entries `mapWithValidError` puts: property path to message. */
  function ViolationEntries(violations: seq<ConstraintViolation>): seq<(string, string)>
  {
    seq(|violations|, i requires 0 <= i < |violations| => (violations[i].propertyPath, violations[i].message))
  }

  /** A null collection reads as an empty one. */
  function OrEmpty<T>(xs: Option<seq<T>>): seq<T>
  {
    if xs.Some? then xs.value else []
  }

  /**
   * `mapWithFieldError`: field to default message for every field error, the
   * last error of a field winning; empty for a null or empty list.
   */
  method MapWithFieldError(fieldErrors: Option<seq<FieldError>>) returns (errMap: map<string, Option<string>>)
    ensures OrEmpty(fieldErrors) == [] ==> errMap == map[]
    ensures errMap == PutAll(FieldEntries(OrEmpty(fieldErrors)))
    ensures errMap.Keys == set i | 0 <= i < |OrEmpty(fieldErrors)| :: OrEmpty(fieldErrors)[i].field
    ensures forall i | 0 <= i < |OrEmpty(fieldErrors)| && LastPut(FieldEntries(OrEmpty(fieldErrors)), i) ::
              errMap[OrEmpty(fieldErrors)[i].field] == OrEmpty(fieldErrors)[i].defaultMessage
    ensures |errMap| <= |OrEmpty(fieldErrors)|
    ensures |errMap| == |OrEmpty(fieldErrors)| <==> DistinctKeys(FieldEntries(OrEmpty(fieldErrors)))
  {
    var errors := OrEmpty(fieldErrors);
    ghost var entries := FieldEntries(errors);
    if errors == [] {
      errMap := map[];
      assert entries == [];
    } else {
      errMap := map[];
      var i := 0;
      while i < |errors|
        invariant i <= |errors|
        invariant errMap == PutAll(entries[..i])
      {
        assert entries[..i + 1][..i] == entries[..i];
        errMap := errMap[errors[i].field := errors[i].defaultMessage];
        i := i + 1;
      }
      assert entries[..i] == entries;
    }
    PutAllKeys(entries);
    assert forall i | 0 <= i < |errors| :: entries[i].0 == errors[i].field;
    assert KeysOf(entries) == set i | 0 <= i < |errors| :: errors[i].field;
    forall i | 0 <= i < |errors| && LastPut(entries, i) ensures errMap[errors[i].field] == errors[i].defaultMessage {
      PutAllLastWins(entries, i);
    }
    PutAllSize(entries);
  }

  /**
   * `mapWithValidError`: property path to message for every violation, in the
   * set's iteration order, the last violation of a path winning; empty for a
   * null or empty set.
   */
  method MapWithValidError(violations: Option<seq<ConstraintViolation>>) returns (errMap: map<string, string>)
    ensures OrEmpty(violations) == [] ==> errMap == map[]
    ensures errMap == PutAll(ViolationEntries(OrEmpty(violations)))
    ensures errMap.Keys == set i | 0 <= i < |OrEmpty(violations)| :: OrEmpty(violations)[i].propertyPath
    ensures forall i | 0 <= i < |OrEmpty(violations)| && LastPut(ViolationEntries(OrEmpty(violations)), i) ::
              errMap[OrEmpty(violations)[i].propertyPath] == OrEmpty(violations)[i].message
    ensures |errMap| <= |OrEmpty(violations)|
  {
    var all := OrEmpty(violations);
    ghost var entries := ViolationEntries(all);
    if all == [] {
      errMap := map[];
      assert entries == [];
    } else {
      errMap := map[];
      var i := 0;
      while i < |all|
        invariant i <= |all|
        invariant errMap == PutAll(entries[..i])
      {
        assert entries[..i + 1][..i] == entries[..i];
        errMap := errMap[all[i].propertyPath := all[i].message];
        i := i + 1;
      }
      assert entries[..i] == entries;
    }
    PutAllKeys(entries);
    assert forall i | 0 <= i < |all| :: entries[i].0 == all[i].propertyPath;
    assert KeysOf(entries) == set i | 0 <= i < |all| :: all[i].propertyPath;
    forall i | 0 <= i < |all| && LastPut(entries, i) ensures errMap[all[i].propertyPath] == all[i].message {
      PutAllLastWins(entries, i);
    }
    PutAllSize(entries);
  }

  // ---------------------------------------------------------------------------
  // Validation
  // ---------------------------------------------------------------------------

  /** Every violation reported for `objs`, element by element, in reporting order. */
  function Reported<T, V>(objs: seq<T>, validator: T -> seq<V>): seq<V>
  {
    if objs == [] then []
    else Reported(objs[..|objs| - 1], validator) + validator(objs[|objs| - 1])
  }

  /** The contents of a `LinkedHashSet` after adding each of `s` in turn. */
  function Deduplicated<V(==)>(s: seq<V>): seq<V>
  {
    if s == [] then []
    else
      var seen := Deduplicated(s[..|s| - 1]);
      if s[|s| - 1] in seen then seen else seen + [s[|s| - 1]]
  }

  /** The position of the first occurrence of `x` in `s`. */
  function FirstIndex<V(==)>(s: seq<V>, x: V): (k: nat)
    requires x in s
    ensures k < |s| && s[k] == x && x !in s[..k]
  {
    if s[0] == x then 0 else 1 + FirstIndex(s[1..], x)
  }

  /** No violation twice. */
  predicate NoDuplicates<V(==)>(s: seq<V>)
  {
    forall i, j | 0 <= i < j < |s| :: s[i] != s[j]
  }

  /** Throw the collected violations when there are any. */
  function Verdict<V>(violations: seq<V>): Validation<V>
  {
    if violations == [] then Passed else ConstraintViolationException(violations)
  }

  /** What `validate(Iterable, groups)` does with the non-null iterable `objs`. */
  function IterableVerdict<T, V(==)>(objs: seq<T>, validator: T -> seq<V>): Validation<V>
  {
    Verdict(Deduplicated(Reported(objs, validator)))
  }

  /** A violation is reported for `objs` exactly when it is reported for one of its elements. */
  lemma {:induction false} ReportedMembers<T, V>(objs: seq<T>, validator: T -> seq<V>, v: V)
    ensures v in Reported(objs, validator) <==> exists i | 0 <= i < |objs| :: v in validator(objs[i])
  {
    if objs != [] {
      var init := objs[..|objs| - 1];
      ReportedMembers(init, validator, v);
      if v in Reported(objs, validator) {
        if v !in validator(objs[|objs| - 1]) {
          var i :| 0 <= i < |init| && v in validator(init[i]);
          assert objs[i] == init[i];
        }
      } else {
        forall i | 0 <= i < |objs| ensures v !in validator(objs[i]) {
          if i < |init| { assert objs[i] == init[i]; }
        }
      }
    }
  }

  /** The set keeps every added violation and adds nothing else. */
  lemma {:induction false} DeduplicatedMembers<V>(s: seq<V>, x: V)
    ensures x in Deduplicated(s) <==> x in s
  {
    if s != [] {
      var init := s[..|s| - 1];
      DeduplicatedMembers(init, x);
      assert s == init + [s[|s| - 1]];
    }
  }

  /** The set holds no violation twice. */
  lemma {:induction false} DeduplicatedNoDuplicates<V>(s: seq<V>)
    ensures NoDuplicates(Deduplicated(s))
  {
    if s != [] {
      DeduplicatedNoDuplicates(s[..|s| - 1]);
    }
  }

  /** Appending does not move the first occurrence of something already present. */
  lemma {:induction false} FirstIndexAppend<V>(s: seq<V>, t: seq<V>, x: V)
    requires x in s
    ensures x in s + t && FirstIndex(s + t, x) == FirstIndex(s, x)
  {
    if s[0] != x {
      assert (s + t)[1..] == s[1..] + t;
      FirstIndexAppend(s[1..], t, x);
    }
  }

  /** The set lists violations in the order they were first added. */
  lemma {:induction false} DeduplicatedFirstSeenOrder<V>(s: seq<V>, i: int, j: int)
    requires 0 <= i < j < |Deduplicated(s)|
    ensures Deduplicated(s)[i] in s && Deduplicated(s)[j] in s
    ensures FirstIndex(s, Deduplicated(s)[i]) < FirstIndex(s, Deduplicated(s)[j])
  {
    var init := s[..|s| - 1];
    var last := s[|s| - 1];
    var d := Deduplicated(init);
    assert s == init + [last];
    assert Deduplicated(s) == d || Deduplicated(s) == d + [last];
    DeduplicatedMembers(s, Deduplicated(s)[i]);
    DeduplicatedMembers(s, Deduplicated(s)[j]);
    DeduplicatedMembers(init, d[i]);
    if j < |d| {
      DeduplicatedMembers(init, d[j]);
      DeduplicatedFirstSeenOrder(init, i, j);
      FirstIndexAppend(init, [last], d[i]);
      FirstIndexAppend(init, [last], d[j]);
    } else {
      // the j-th entry is `last`, seen for the first time at the end of `s`
      assert Deduplicated(s) == d + [last];
      DeduplicatedMembers(init, last);
      FirstIndexAppend(init, [last], d[i]);
      var k := FirstIndex(s, last);
      assert s[..|init|] == init;
      assert k == |init|;
    }
  }

  /** The iterable outcome throws exactly when some element is invalid, carrying each violation once. */
  lemma IterableVerdictMeaning<T, V>(objs: seq<T>, validator: T -> seq<V>)
    ensures var outcome := IterableVerdict(objs, validator);
      && (outcome.ConstraintViolationException? <==> exists i | 0 <= i < |objs| :: validator(objs[i]) != [])
      && (outcome.ConstraintViolationException? ==>
            && NoDuplicates(outcome.violations)
            && forall v :: v in outcome.violations <==> exists i | 0 <= i < |objs| :: v in validator(objs[i]))
  {
    var all := Deduplicated(Reported(objs, validator));
    DeduplicatedNoDuplicates(Reported(objs, validator));
    forall v ensures v in all <==> exists i | 0 <= i < |objs| :: v in validator(objs[i]) {
      DeduplicatedMembers(Reported(objs, validator), v);
      ReportedMembers(objs, validator, v);
    }
    if exists i | 0 <= i < |objs| :: validator(objs[i]) != [] {
      var i :| 0 <= i < |objs| && validator(objs[i]) != [];
      var v := validator(objs[i])[0];
      ReportedMembers(objs, validator, v);
      assert v in all;
    }
    if all != [] {
      DeduplicatedMembers(Reported(objs, validator), all[0]);
      ReportedMembers(objs, validator, all[0]);
      var i :| 0 <= i < |objs| && all[0] in validator(objs[i]);
      assert validator(objs[i]) != [];
    }
  }

  /**
   * `validate(Iterable, groups)`: a null iterable passes without consulting
   * the validator; otherwise every element is validated once, the violations
   * are collected into an insertion-ordered set and thrown if there are any.
   * `validated` counts the validator calls.
   */
  method ValidateIterable<T, V(==)>(objs: Option<seq<T>>, validator: T -> seq<V>)
    returns (outcome: Validation<V>, validated: nat)
    ensures objs.None? ==> outcome == Passed && validated == 0
    ensures objs.Some? ==> validated == |objs.value| && outcome == IterableVerdict(objs.value, validator)
    ensures outcome.ConstraintViolationException? <==>
              exists i | 0 <= i < |OrEmpty(objs)| :: validator(OrEmpty(objs)[i]) != []
  {
    if objs.None? {
      return Passed, 0;
    }
    var elements := objs.value;
    var allViolations: seq<V> := [];
    validated := 0;
    while validated < |elements|
      invariant validated <= |elements|
      invariant allViolations == Deduplicated(Reported(elements[..validated], validator))
    {
      var violations := validator(elements[validated]);
      ghost var before := Reported(elements[..validated], validator);
      var j := 0;
      assert before + violations[..0] == before;
      while j < |violations|
        invariant j <= |violations|
        invariant allViolations == Deduplicated(before + violations[..j])
      {
        assert (before + violations[..j + 1])[..|before| + j] == before + violations[..j];
        if violations[j] !in allViolations {
          allViolations := allViolations + [violations[j]];
        }
        j := j + 1;
      }
      assert elements[..validated + 1][..validated] == elements[..validated];
      assert violations[..j] == violations;
      validated := validated + 1;
    }
    assert elements[..validated] == elements;
    outcome := Verdict(allViolations);
    assert OrEmpty(objs) == elements;
    IterableVerdictMeaning(elements, validator);
  }

  /**
   * `validate(Object, groups)`: an iterable is handed to `validate(Iterable,
   * groups)`; a single bean throws the validator's violations if there are any.
   */
  method Validate<T, V(==)>(arg: Argument<T>, validator: T -> seq<V>) returns (outcome: Validation<V>)
    ensures arg.Bean? ==> outcome == Verdict(validator(arg.obj))
    ensures arg.Bean? ==> (outcome.ConstraintViolationException? <==> validator(arg.obj) != [])
    ensures arg.Beans? ==> outcome == IterableVerdict(arg.objs, validator)
  {
    match arg {
      case Beans(objs) =>
        var calls;
        outcome, calls := ValidateIterable(Some(objs), validator);
      case Bean(obj) =>
        var violations := validator(obj);
        if violations != [] {
          outcome := ConstraintViolationException(violations);
        } else {
          outcome := Passed;
        }
    }
  }
}
