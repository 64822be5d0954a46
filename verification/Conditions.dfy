/** Optional values, used wherever the operator has nil or a (value, found) pair; truth values as counts. */
module Options {
  datatype Option<+T> = None | Some(value: T)

  function One(b: bool): nat {
    if b then 1 else 0
  }
}

/**
  Status condition lists of resources and jobs, and the search and update functions on them.
  A nil list and an empty one are the same stored object (the field is omitted when empty).
 */
module Conditions {
  import opened Options

  datatype Status = ConditionTrue | ConditionFalse | ConditionUnknown
  datatype Condition = Condition(ctype: string, status: Status)

  const CREATED := "Created"
  const FAILED := "Failed"
  const JOB_COMPLETE := "Complete"
  const JOB_FAILED := "Failed"

  predicate Matches(c: Condition, status: Status, types: seq<string>) {
    c.ctype in types && c.status == status
  }

  /** The type of the first entry that has one of the given types and the given status. */
  function AnyWithStatus(cs: seq<Condition>, status: Status, types: seq<string>): Option<string> {
    if cs == [] then None
    else if Matches(cs[0], status, types) then Some(cs[0].ctype)
    else AnyWithStatus(cs[1..], status, types)
  }

  /** Entry i matches and no earlier one does. */
  ghost predicate FirstMatch(cs: seq<Condition>, status: Status, types: seq<string>, i: nat) {
    i < |cs| && Matches(cs[i], status, types) && forall h :: 0 <= h < i ==> !Matches(cs[h], status, types)
  }

  /** None exactly when no entry matches; otherwise the type of the first that does. */
  lemma {:induction false} AnyWithStatusIsFirst(cs: seq<Condition>, status: Status, types: seq<string>)
    ensures AnyWithStatus(cs, status, types).None? <==> forall c :: c in cs ==> !Matches(c, status, types)
    ensures AnyWithStatus(cs, status, types).Some? ==>
              exists i: nat :: FirstMatch(cs, status, types, i) && AnyWithStatus(cs, status, types).value == cs[i].ctype
  {
    if cs == [] {
    } else if Matches(cs[0], status, types) {
      assert FirstMatch(cs, status, types, 0);
    } else {
      var tail := cs[1..];
      AnyWithStatusIsFirst(tail, status, types);
      assert cs == [cs[0]] + tail;
      if AnyWithStatus(tail, status, types).Some? {
        var i: nat :| FirstMatch(tail, status, types, i) && AnyWithStatus(tail, status, types).value == tail[i].ctype;
        forall h | 0 <= h < i + 1 ensures !Matches(cs[h], status, types) {
          assert h > 0 ==> cs[h] == tail[h - 1];
        }
        assert FirstMatch(cs, status, types, i + 1);
      }
    }
  }

  predicate HasTrue(cs: seq<Condition>, ctype: string) {
    AnyWithStatus(cs, ConditionTrue, [ctype]).Some?
  }

  lemma HasTrueMeans(cs: seq<Condition>, ctype: string)
    ensures HasTrue(cs, ctype) <==> Condition(ctype, ConditionTrue) in cs
  {
    AnyWithStatusIsFirst(cs, ConditionTrue, [ctype]);
    assert forall c :: Matches(c, ConditionTrue, [ctype]) <==> c == Condition(ctype, ConditionTrue);
  }

  /** The entries of every other type. */
  function Without(cs: seq<Condition>, ctype: string): seq<Condition> {
    if cs == [] then []
    else if cs[0].ctype != ctype then [cs[0]] + Without(cs[1..], ctype)
    else Without(cs[1..], ctype)
  }

  function UpdateCondition(cs: seq<Condition>, ctype: string, entry: Condition): (seq<Condition>, bool) {
    var kept := Without(cs, ctype);
    if |kept| == |cs| then (cs, false) else (kept + [entry], true)
  }

  function Count(cs: seq<Condition>, ctype: string): nat {
    if cs == [] then 0 else (if cs[0].ctype == ctype then 1 else 0) + Count(cs[1..], ctype)
  }

  predicate Unique(cs: seq<Condition>) {
    forall i, j :: 0 <= i < j < |cs| ==> cs[i].ctype != cs[j].ctype
  }

  // ----- laws of UpdateCondition -----

  lemma {:induction false} CountAppend(a: seq<Condition>, b: seq<Condition>, t: string)
    ensures Count(a + b, t) == Count(a, t) + Count(b, t)
  {
    if a == [] {
      assert a + b == b;
    } else {
      CountAppend(a[1..], b, t);
      assert (a + b)[1..] == a[1..] + b;
    }
  }

  lemma {:induction false} CountWithout(cs: seq<Condition>, t: string, u: string)
    ensures Count(Without(cs, t), u) == if u == t then 0 else Count(cs, u)
  {
    if cs != [] {
      CountWithout(cs[1..], t, u);
      if cs[0].ctype != t {
        assert Without(cs, t)[1..] == Without(cs[1..], t);
      }
    }
  }

  lemma Associates(a: seq<Condition>, b: seq<Condition>, c: seq<Condition>)
    ensures (a + b) + c == a + (b + c)
  {
  }

  lemma {:induction false} WithoutAppend(a: seq<Condition>, b: seq<Condition>, t: string)
    ensures Without(a + b, t) == Without(a, t) + Without(b, t)
  {
    if a == [] {
      assert a + b == b;
    } else {
      var rest := a[1..];
      WithoutAppend(rest, b, t);
      assert (a + b)[0] == a[0] && (a + b)[1..] == rest + b;
      var kept := if a[0].ctype == t then [] else [a[0]];
      assert Without(a, t) == kept + Without(rest, t);
      assert Without(a + b, t) == kept + Without(rest + b, t);
      Associates(kept, Without(rest, t), Without(b, t));
    }
  }

  lemma {:induction false} WithoutIdempotent(cs: seq<Condition>, t: string)
    ensures Without(Without(cs, t), t) == Without(cs, t)
  {
    if cs != [] {
      WithoutIdempotent(cs[1..], t);
      if cs[0].ctype != t {
        assert Without(cs, t)[1..] == Without(cs[1..], t);
      }
    }
  }

  lemma {:induction false} LengthWithout(cs: seq<Condition>, t: string)
    ensures |Without(cs, t)| + Count(cs, t) == |cs|
  {
    if cs != [] {
      LengthWithout(cs[1..], t);
    }
  }

  lemma {:induction false} CountZero(cs: seq<Condition>, t: string)
    ensures Count(cs, t) == 0 <==> forall c :: c in cs ==> c.ctype != t
  {
    if cs != [] {
      CountZero(cs[1..], t);
      assert cs == [cs[0]] + cs[1..];
    }
  }

  lemma {:induction false} UniqueCounts(cs: seq<Condition>, t: string)
    requires Unique(cs)
    ensures Count(cs, t) <= 1
  {
    if cs != [] {
      assert forall i :: 0 <= i < |cs[1..]| ==> cs[1..][i] == cs[i + 1];
      UniqueCounts(cs[1..], t);
      CountZero(cs[1..], cs[0].ctype);
    }
  }

  lemma {:induction false} CountsUnique(cs: seq<Condition>)
    requires forall t :: Count(cs, t) <= 1
    ensures Unique(cs)
  {
    if cs != [] {
      var tail := cs[1..];
      forall t ensures Count(tail, t) <= 1 { assert Count(cs, t) <= 1; }
      CountsUnique(tail);
      assert Count(cs, cs[0].ctype) <= 1;
      CountZero(tail, cs[0].ctype);
      forall i, j | 0 <= i < j < |cs| ensures cs[i].ctype != cs[j].ctype {
        assert cs[j] == tail[j - 1];
        if i > 0 { assert cs[i] == tail[i - 1]; }
      }
    }
  }

  /**
    For every list: the flag says whether the type occurs; if it does, exactly one entry of the type
    remains and it is the new one, all other entries stay in order, and other types keep their count;
    if it does not, nothing changes.
   */
  lemma UpdateConditionLaws(cs: seq<Condition>, ctype: string, entry: Condition)
    requires entry.ctype == ctype
    ensures var (r, found) := UpdateCondition(cs, ctype, entry);
            && (found <==> exists c :: c in cs && c.ctype == ctype)
            && (!found ==> r == cs)
            && (found ==> Count(r, ctype) == 1 && entry in r)
            && Without(r, ctype) == Without(cs, ctype)
            && (forall u :: u != ctype ==> Count(r, u) == Count(cs, u))
            && (Unique(cs) ==> Unique(r))
  {
    var (r, found) := UpdateCondition(cs, ctype, entry);
    LengthWithout(cs, ctype);
    CountZero(cs, ctype);
    if found {
      var kept := Without(cs, ctype);
      forall u ensures Count(r, u) == if u == ctype then 1 else Count(cs, u) {
        CountAppend(kept, [entry], u);
        CountWithout(cs, ctype, u);
        assert Count([entry], u) == (if u == ctype then 1 else 0) + Count([entry][1..], u);
      }
      WithoutAppend(kept, [entry], ctype);
      WithoutIdempotent(cs, ctype);
      assert Without([entry], ctype) == [] + Without([entry][1..], ctype);
      if Unique(cs) {
        forall u ensures Count(r, u) <= 1 { UniqueCounts(cs, u); }
        CountsUnique(r);
      }
    }
  }

  // ----- the Created/Failed phase shared by keys and repositories -----

  const DEFAULT_PHASE := [Condition(CREATED, ConditionFalse), Condition(FAILED, ConditionFalse)]

  function MarkCreated(cs: seq<Condition>): seq<Condition> {
    var first := UpdateCondition(cs, CREATED, Condition(CREATED, ConditionTrue)).0;
    UpdateCondition(first, FAILED, Condition(FAILED, ConditionFalse)).0
  }

  function MarkFailed(cs: seq<Condition>): seq<Condition> {
    var first := UpdateCondition(cs, FAILED, Condition(FAILED, ConditionTrue)).0;
    UpdateCondition(first, CREATED, Condition(CREATED, ConditionFalse)).0
  }

  /** Exactly one Created and one Failed entry, in either order, and nothing else. */
  predicate TwoEntries(cs: seq<Condition>) {
    |cs| == 2 && ((cs[0].ctype == CREATED && cs[1].ctype == FAILED) || (cs[0].ctype == FAILED && cs[1].ctype == CREATED))
  }

  predicate Phased(cs: seq<Condition>) {
    TwoEntries(cs) && !(HasTrue(cs, CREATED) && HasTrue(cs, FAILED))
  }

  /** The setters put the entry they set to True first, whichever order the list had. */
  lemma SettersOrderEntries(cs: seq<Condition>)
    requires TwoEntries(cs)
    ensures MarkCreated(cs) == [Condition(CREATED, ConditionTrue), Condition(FAILED, ConditionFalse)]
    ensures MarkFailed(cs) == [Condition(FAILED, ConditionTrue), Condition(CREATED, ConditionFalse)]
    ensures Phased(MarkCreated(cs)) && HasTrue(MarkCreated(cs), CREATED) && !HasTrue(MarkCreated(cs), FAILED)
    ensures Phased(MarkFailed(cs)) && HasTrue(MarkFailed(cs), FAILED) && !HasTrue(MarkFailed(cs), CREATED)
  {
    WithoutPair(cs, CREATED);
    WithoutPair(cs, FAILED);
    var c := UpdateCondition(cs, CREATED, Condition(CREATED, ConditionTrue)).0;
    var f := UpdateCondition(cs, FAILED, Condition(FAILED, ConditionTrue)).0;
    assert TwoEntries(c) && TwoEntries(f);
    WithoutPair(c, FAILED);
    WithoutPair(f, CREATED);
    HasTrueMeans(MarkCreated(cs), CREATED);
    HasTrueMeans(MarkCreated(cs), FAILED);
    HasTrueMeans(MarkFailed(cs), CREATED);
    HasTrueMeans(MarkFailed(cs), FAILED);
  }

  lemma WithoutPair(cs: seq<Condition>, t: string)
    requires TwoEntries(cs) && t in [CREATED, FAILED]
    ensures Without(cs, t) == [if cs[0].ctype == t then cs[1] else cs[0]]
  {
    assert cs[1..] == [cs[1]];
    assert cs[1..][1..] == [];
    assert Without(cs[1..], t) == if cs[1].ctype != t then [cs[1]] else [];
  }

  lemma DefaultPhaseIsPhased()
    ensures Phased(DEFAULT_PHASE) && !HasTrue(DEFAULT_PHASE, CREATED) && !HasTrue(DEFAULT_PHASE, FAILED)
    ensures DEFAULT_PHASE != []
  {
    HasTrueMeans(DEFAULT_PHASE, CREATED);
    HasTrueMeans(DEFAULT_PHASE, FAILED);
  }
}
