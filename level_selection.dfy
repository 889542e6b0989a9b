/**
 * `MaturityConfig.GetLevelForScore`: a stable sort of the levels by
 * descending `MinScore`, then the first level the score reaches.
 */
module LevelSelection {
  import opened Wrappers
  import opened ScoringTypes

  const DefaultLevel := "Level 1 - Basic CI"

  predicate Reaches(score: int, l: LevelDefinition)
  {
    l.minScore <= score
  }

  predicate Descending(s: seq<LevelDefinition>)
  {
    forall i, j :: 0 <= i < j < |s| ==> s[j].minScore <= s[i].minScore
  }

  /** Inserts `x` before the first level whose `MinScore` is not larger. */
  function Insert(x: LevelDefinition, s: seq<LevelDefinition>): (r: seq<LevelDefinition>)
    ensures |r| == |s| + 1
    ensures r[0] == x || (s != [] && r[0] == s[0])
    ensures multiset(r) == multiset(s) + multiset{x}
  {
    if s == [] || s[0].minScore <= x.minScore then [x] + s
    else
      assert s == [s[0]] + s[1..];
      [s[0]] + Insert(x, s[1..])
  }

  lemma {:induction false} InsertDescending(x: LevelDefinition, s: seq<LevelDefinition>)
    requires Descending(s)
    ensures Descending(Insert(x, s))
  {
    if !(s == [] || s[0].minScore <= x.minScore) {
      var rest := Insert(x, s[1..]);
      InsertDescending(x, s[1..]);
      var r := [s[0]] + rest;
      assert forall j :: 0 < j < |r| ==> r[j] == rest[j - 1];
      assert forall j :: 0 <= j < |rest| ==> rest[j].minScore <= rest[0].minScore;
    }
  }

  /** `OrderByDescending(l => l.MinScore)`: stable, so ties keep their declared order. */
  function SortDescending(levels: seq<LevelDefinition>): (r: seq<LevelDefinition>)
    ensures |r| == |levels|
    ensures multiset(r) == multiset(levels)
    ensures Descending(r)
  {
    if levels == [] then []
    else
      assert levels == [levels[0]] + levels[1..];
      InsertDescending(levels[0], SortDescending(levels[1..]));
      Insert(levels[0], SortDescending(levels[1..]))
  }

  /** `FirstOrDefault(l => score >= l.MinScore)`. */
  function FirstReached(s: seq<LevelDefinition>, score: int): (r: Option<LevelDefinition>)
  {
    if s == [] then None
    else if Reaches(score, s[0]) then Some(s[0])
    else FirstReached(s[1..], score)
  }

  /** The level selected, or None when no level is reached. */
  function SelectLevel(levels: seq<LevelDefinition>, score: int): Option<LevelDefinition>
  {
    FirstReached(SortDescending(levels), score)
  }

  function GetLevelForScore(levels: seq<LevelDefinition>, score: int): string
  {
    match SelectLevel(levels, score)
    case Some(l) => l.name
    case None => DefaultLevel
  }

  /**
   * Reference definition: a left-to-right scan that replaces its candidate only
   * by a reached level with a strictly larger `MinScore`.
   */
  function Better(x: LevelDefinition, best: Option<LevelDefinition>, score: int): Option<LevelDefinition>
  {
    if !Reaches(score, x) then best
    else if best.None? || best.value.minScore <= x.minScore then Some(x)
    else best
  }

  function Best(levels: seq<LevelDefinition>, score: int): Option<LevelDefinition>
  {
    if levels == [] then None else Better(levels[0], Best(levels[1..], score), score)
  }

  /** Inserting into a descending list changes the first reached level as `Better` says. */
  lemma {:induction false} FirstReachedInsert(x: LevelDefinition, s: seq<LevelDefinition>, score: int)
    requires Descending(s)
    ensures FirstReached(Insert(x, s), score) == Better(x, FirstReached(s, score), score)
  {
    if s == [] || s[0].minScore <= x.minScore {
      var r := [x] + s;
      assert r[1..] == s;
    } else {
      var rest := Insert(x, s[1..]);
      assert ([s[0]] + rest)[1..] == rest;
      if !Reaches(score, s[0]) {
        FirstReachedInsert(x, s[1..], score);
      }
    }
  }

  /** The stable sort followed by the first reached level is the reference scan. */
  lemma {:induction false} SelectLevelIsBest(levels: seq<LevelDefinition>, score: int)
    ensures SelectLevel(levels, score) == Best(levels, score)
  {
    if levels != [] {
      SelectLevelIsBest(levels[1..], score);
      FirstReachedInsert(levels[0], SortDescending(levels[1..]), score);
    }
  }

  /**
   * Level i is the one the comment "highest minScore <= score wins" means: it is
   * reached, no reached level has a larger `MinScore`, and every reached level
   * declared before it has a smaller one.
   */
  predicate IsSelected(levels: seq<LevelDefinition>, score: int, i: int)
  {
    && 0 <= i < |levels|
    && Reaches(score, levels[i])
    && (forall j :: 0 <= j < |levels| && Reaches(score, levels[j]) ==> levels[j].minScore <= levels[i].minScore)
    && (forall j :: 0 <= j < i && Reaches(score, levels[j]) ==> levels[j].minScore < levels[i].minScore)
  }

  lemma {:induction false} BestCharacterised(levels: seq<LevelDefinition>, score: int)
    ensures Best(levels, score).None? <==> (forall j :: 0 <= j < |levels| ==> !Reaches(score, levels[j]))
    ensures Best(levels, score).Some? ==>
      exists i :: IsSelected(levels, score, i) && Best(levels, score).value == levels[i]
  {
    if levels != [] {
      var x, rest := levels[0], levels[1..];
      BestCharacterised(rest, score);
      assert forall j :: 0 < j < |levels| ==> levels[j] == rest[j - 1];
      var b := Best(rest, score);
      if b.Some? {
        var k :| IsSelected(rest, score, k) && b.value == rest[k];
        if Reaches(score, x) && b.value.minScore <= x.minScore {
          assert IsSelected(levels, score, 0);
        } else {
          assert IsSelected(levels, score, k + 1);
        }
      } else if Reaches(score, x) {
        assert IsSelected(levels, score, 0);
      }
    }
  }

  /** At most one level satisfies the characterisation. */
  lemma SelectedUnique(levels: seq<LevelDefinition>, score: int, i: int, k: int)
    requires IsSelected(levels, score, i) && IsSelected(levels, score, k)
    ensures i == k
  {
  }

  /**
   * GetLevelForScore picks exactly the characterised level, and no level at all
   * exactly when none is reached (an empty list included).
   */
  lemma SelectLevelSpec(levels: seq<LevelDefinition>, score: int)
    ensures SelectLevel(levels, score).None? <==> (forall j :: 0 <= j < |levels| ==> !Reaches(score, levels[j]))
    ensures forall i :: IsSelected(levels, score, i) ==> SelectLevel(levels, score) == Some(levels[i])
    ensures SelectLevel(levels, score).Some? ==>
      exists i :: IsSelected(levels, score, i) && SelectLevel(levels, score).value == levels[i]
  {
    SelectLevelIsBest(levels, score);
    BestCharacterised(levels, score);
    forall i | IsSelected(levels, score, i)
      ensures SelectLevel(levels, score) == Some(levels[i])
    {
      var k :| IsSelected(levels, score, k) && SelectLevel(levels, score).value == levels[k];
      SelectedUnique(levels, score, i, k);
    }
  }

  lemma GetLevelForScoreSpec(levels: seq<LevelDefinition>, score: int)
    ensures (forall j :: 0 <= j < |levels| ==> !Reaches(score, levels[j])) ==> GetLevelForScore(levels, score) == DefaultLevel
    ensures forall i :: IsSelected(levels, score, i) ==> GetLevelForScore(levels, score) == levels[i].name
  {
    SelectLevelSpec(levels, score);
  }

  /** A higher score never selects a level with a smaller `MinScore`. */
  lemma SelectLevelMonotone(levels: seq<LevelDefinition>, low: int, high: int)
    requires low <= high
    requires SelectLevel(levels, low).Some?
    ensures SelectLevel(levels, high).Some?
    ensures SelectLevel(levels, low).value.minScore <= SelectLevel(levels, high).value.minScore
  {
    SelectLevelSpec(levels, low);
    SelectLevelSpec(levels, high);
    var i :| IsSelected(levels, low, i) && SelectLevel(levels, low).value == levels[i];
    assert Reaches(high, levels[i]);
  }
}
