/** The validator's findings, and the grading that lets a problem the live route
    already had through as a warning. */
module Findings {
  import opened Records
  import Sequences

  datatype Level = Error | Warning

  datatype Code =
    | UnknownStopType | StageNameMissing | MarkerWithoutPosition
    | StopMergedAway | UnknownStop | StopIsStation
    | MissingStage | StageDecreases
    | JumpWrongStageName
    | IntermediateBeforeStage | IntermediateWrongStage | IntermediateWrongStageName
    | FirstNotStageStop | RepeatedStop | TooFewStops | RouteEmpty
    | StopIdTaken | MissingField | StopInUse | PositionReviewMismatch
    | RouteExists | UnknownRoute | RouteHasChanges
    | UnknownStation | MemberIsStation | MemberHasStation
    | MergeWouldRepeatStop

  /** What a finding is matched by: its code and what it is about. */
  datatype Key = Key(code: Code, about: string)

  datatype Finding = Finding(change: nat, level: Level, key: Key)

  /** An error about one change. */
  function Err(change: nat, code: Code, about: string): Finding {
    Finding(change, Error, Key(code, about))
  }

  predicate Clean(found: seq<Finding>) {
    forall f | f in found :: f.level != Error
  }

  function Digits(n: nat): string {
    var d := ['0' + (n % 10) as char];
    if n < 10 then d else Digits(n / 10) + d
  }

  function Decimal(n: int): string {
    if n < 0 then "-" + Digits(-n) else Digits(n)
  }

  // ---- grade

  /** How many findings with this key are errors. */
  function Errors(found: seq<Finding>, key: Key): nat {
    if found == [] then 0 else
      (if found[0].level == Error && found[0].key == key then 1 else 0) + Errors(found[1..], key)
  }

  function ErrorKeys(found: seq<Finding>): seq<Key> {
    if found == [] then [] else
      (if found[0].level == Error then [found[0].key] else []) + ErrorKeys(found[1..])
  }

  /** The findings with as many errors of each key downgraded as `excused` has of it. */
  function Graded(found: seq<Finding>, excused: multiset<Key>): seq<Finding> {
    if found == [] then [] else
      var f := found[0];
      if f.level == Error && f.key in excused then
        [f.(level := Warning)] + Graded(found[1..], excused - multiset{f.key})
      else
        [f] + Graded(found[1..], excused)
  }

  function GradedAgainst(found: seq<Finding>, live: seq<Finding>): seq<Finding> {
    Graded(found, multiset(ErrorKeys(live)))
  }

  lemma {:induction false} ErrorKeysCount(found: seq<Finding>, key: Key)
    ensures multiset(ErrorKeys(found))[key] == Errors(found, key)
  {
    if found != [] {
      ErrorKeysCount(found[1..], key);
    }
  }

  lemma {:induction false} GradedCount(found: seq<Finding>, excused: multiset<Key>, key: Key)
    ensures Errors(Graded(found, excused), key)
         == if Errors(found, key) <= excused[key] then 0 else Errors(found, key) - excused[key]
  {
    if found != [] {
      var f := found[0];
      var after := if f.level == Error && f.key in excused then excused - multiset{f.key} else excused;
      GradedCount(found[1..], after, key);
      assert Graded(found, excused)[1..] == Graded(found[1..], after);
    }
  }

  /** Of each key, as many errors stay as the edit added to those of the live route;
      the findings keep their number, order and keys, and only levels fall. */
  lemma GradeBlocksOnlyNewProblems(found: seq<Finding>, live: seq<Finding>, key: Key)
    ensures var out := GradedAgainst(found, live);
            Errors(out, key) == if Errors(found, key) <= Errors(live, key) then 0
                                else Errors(found, key) - Errors(live, key)
    ensures |GradedAgainst(found, live)| == |found|
    ensures forall i | 0 <= i < |found| ::
              GradedAgainst(found, live)[i] == found[i]
              || (found[i].level == Error && GradedAgainst(found, live)[i] == found[i].(level := Warning))
  {
    GradeKeepsFindings(found, multiset(ErrorKeys(live)));
    GradedCount(found, multiset(ErrorKeys(live)), key);
    ErrorKeysCount(live, key);
  }

  lemma {:induction false} GradeKeepsFindings(found: seq<Finding>, excused: multiset<Key>)
    ensures |Graded(found, excused)| == |found|
    ensures forall i | 0 <= i < |found| ::
              Graded(found, excused)[i] == found[i]
              || (found[i].level == Error && Graded(found, excused)[i] == found[i].(level := Warning))
  {
    if found != [] {
      hide Graded;
      var f := found[0];
      GradedStep(found, excused);
      GradeKeepsFindings(found[1..], if f.level == Error && f.key in excused then excused - multiset{f.key} else excused);
      assert forall i | 1 <= i < |found| :: found[i] == found[1..][i - 1];
    }
  }

  lemma {:induction false} ErrorPresent(found: seq<Finding>, f: Finding)
    requires f in found && f.level == Error
    ensures Errors(found, f.key) > 0
  {
    if found[0] != f {
      ErrorPresent(found[1..], f);
    }
  }

  lemma {:induction false} ErrorSomewhere(found: seq<Finding>, key: Key)
    requires Errors(found, key) > 0
    ensures exists f :: f in found && f.level == Error && f.key == key
  {
    if !(found[0].level == Error && found[0].key == key) {
      ErrorSomewhere(found[1..], key);
    }
  }

  lemma {:induction false} CleanMeansNoErrors(found: seq<Finding>)
    ensures Clean(found) <==> forall key :: Errors(found, key) == 0
  {
    if Clean(found) {
      forall key: Key
        ensures Errors(found, key) == 0
      {
        if Errors(found, key) > 0 {
          ErrorSomewhere(found, key);
        }
      }
    } else {
      var f :| f in found && f.level == Error;
      ErrorPresent(found, f);
    }
  }

  /** Grading a list against itself leaves no error. */
  lemma GradeAgainstItself(found: seq<Finding>)
    ensures Clean(GradedAgainst(found, found))
  {
    forall key
      ensures Errors(GradedAgainst(found, found), key) == 0
    {
      GradeBlocksOnlyNewProblems(found, found, key);
    }
    CleanMeansNoErrors(GradedAgainst(found, found));
  }

  /** An error whose code no live finding has survives the grading. */
  lemma NewCodeSurvivesGrade(found: seq<Finding>, live: seq<Finding>, f: Finding)
    requires f in found && f.level == Error
    requires forall x | x in live :: x.key.code != f.key.code
    ensures !Clean(GradedAgainst(found, live))
  {
    ErrorPresent(found, f);
    if Errors(live, f.key) > 0 {
      ErrorSomewhere(live, f.key);
      assert false;
    }
    GradeBlocksOnlyNewProblems(found, live, f.key);
    CleanMeansNoErrors(GradedAgainst(found, live));
  }

  /** Drops the first occurrence of a key. */
  method RemoveFirst(keys: seq<Key>, key: Key) returns (rest: seq<Key>)
    requires key in keys
    ensures multiset(rest) == multiset(keys) - multiset{key}
  {
    var i := 0;
    while keys[i] != key
      invariant 0 <= i < |keys|
      invariant exists k :: i <= k < |keys| && keys[k] == key
      decreases |keys| - i
    {
      i := i + 1;
    }
    rest := keys[..i] + keys[i + 1..];
    OneLess(keys, i);
  }

  lemma OneLess(keys: seq<Key>, i: nat)
    requires i < |keys|
    ensures multiset(keys[..i] + keys[i + 1..]) == multiset(keys) - multiset{keys[i]}
  {
    assert keys == keys[..i] + [keys[i]] + keys[i + 1..];
  }

  method Grade(found: seq<Finding>, live: seq<Finding>) returns (out: seq<Finding>)
    ensures out == GradedAgainst(found, live)
  {
    var remaining := ErrorKeys(live);
    out := [];
    GradedEnds(found, live);
    for i := 0 to |found|
      invariant out + Graded(found[i..], multiset(remaining)) == GradedAgainst(found, live)
    {
      hide *;
      Sequences.Next(found, i);
      GradedStep(found[i..], multiset(remaining));
      var f := found[i];
      if f.level == Error && f.key in remaining {
        remaining := RemoveFirst(remaining, f.key);
        f := f.(level := Warning);
      }
      Sequences.Associate(out, [f], Graded(found[i + 1..], multiset(remaining)));
      out := out + [f];
    }
    NothingGraded(found, multiset(remaining), out);
  }

  lemma GradedEnds(found: seq<Finding>, live: seq<Finding>)
    ensures [] + Graded(found[0..], multiset(ErrorKeys(live))) == GradedAgainst(found, live)
  {
    assert found[0..] == found;
  }

  lemma NothingGraded(found: seq<Finding>, excused: multiset<Key>, out: seq<Finding>)
    ensures out + Graded(found[|found|..], excused) == out
  {
    assert found[|found|..] == [];
  }

  /** The first finding is graded, and uses up its excuse. */
  lemma GradedStep(found: seq<Finding>, excused: multiset<Key>)
    requires found != []
    ensures var f := found[0];
            Graded(found, excused) == if f.level == Error && f.key in excused
              then [f.(level := Warning)] + Graded(found[1..], excused - multiset{f.key})
              else [f] + Graded(found[1..], excused)
  {
  }
}
