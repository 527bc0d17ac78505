/**
 * Dynamic-key patterns: literal parts with arbitrary text between them, matched greedily from the
 * left.  The specification says some choice of wildcard texts spells the key.
 */
module Glob {
  import opened Prelude

  /** parts[0] + wilds[0] + parts[1] + ... + wilds[k-1] + parts[k]. */
  function Spell(parts: seq<string>, wilds: seq<string>): string
    requires |parts| == |wilds| + 1
  {
    if wilds == [] then parts[0] else parts[0] + wilds[0] + Spell(parts[1..], wilds[1..])
  }

  /** The key is spelled by the parts with some texts in the gaps. */
  ghost predicate Matches(key: string, parts: seq<string>)
    requires parts != []
  {
    exists wilds: seq<string> :: |wilds| == |parts| - 1 && Spell(parts, wilds) == key
  }

  predicate OccursAt(s: string, part: string, i: nat) {
    i + |part| <= |s| && s[i..i + |part|] == part
  }

  /** `rest` is some text, the first part, some text, the next part, ..., ending with the last part. */
  ghost predicate GapMatch(rest: string, parts: seq<string>)
    requires parts != []
    decreases |parts|
  {
    if |parts| == 1 then EndsWith(rest, parts[0])
    else exists i: nat :: OccursAt(rest, parts[0], i) && GapMatch(rest[i + |parts[0]|..], parts[1..])
  }

  lemma CutOut(first: string, rest: string, part: string, i: nat)
    requires OccursAt(rest, part, i)
    ensures first + rest[..i] + (part + rest[i + |part|..]) == first + rest
  {
    assert rest == rest[..i] + (part + rest[i + |part|..]);
  }

  lemma SpellCons(first: string, wild: string, parts: seq<string>, wilds: seq<string>)
    requires |parts| == |wilds| + 1
    ensures Spell([first] + parts, [wild] + wilds) == first + wild + Spell(parts, wilds)
  {
    assert ([first] + parts)[1..] == parts && ([wild] + wilds)[1..] == wilds;
  }

  /** Wildcard texts for the parts after the first, from a gap match. */
  lemma {:induction false} GapMatchSpells(first: string, rest: string, parts: seq<string>) returns (wilds: seq<string>)
    requires parts != [] && GapMatch(rest, parts)
    ensures |wilds| == |parts| && Spell([first] + parts, wilds) == first + rest
    decreases |parts|
  {
    if |parts| == 1 {
      var w := rest[..|rest| - |parts[0]|];
      SpellCons(first, w, parts, []);
      wilds := [w] + [];
      assert rest == w + parts[0];
      assert first + w + parts[0] == first + rest;
    } else {
      var i: nat :| OccursAt(rest, parts[0], i) && GapMatch(rest[i + |parts[0]|..], parts[1..]);
      var tail := rest[i + |parts[0]|..];
      var more := GapMatchSpells(parts[0], tail, parts[1..]);
      assert [parts[0]] + parts[1..] == parts;
      SpellCons(first, rest[..i], parts, more);
      wilds := [rest[..i]] + more;
      CutOut(first, rest, parts[0], i);
    }
  }

  /** And back: any spelling puts the later parts into the text after the first one. */
  lemma {:induction false} SpellGivesGapMatch(parts: seq<string>, wilds: seq<string>)
    requires |parts| == |wilds| + 1 && |parts| >= 2
    ensures Spell(parts, wilds) == parts[0] + Spell(parts, wilds)[|parts[0]|..]
    ensures GapMatch(Spell(parts, wilds)[|parts[0]|..], parts[1..])
    decreases |parts|
  {
    var rest := wilds[0] + Spell(parts[1..], wilds[1..]);
    assert Spell(parts, wilds) == parts[0] + rest;
    assert Spell(parts, wilds)[|parts[0]|..] == rest;
    if |parts| == 2 {
      assert Spell(parts[1..], wilds[1..]) == parts[1];
      assert rest[|rest| - |parts[1]|..] == parts[1];
    } else {
      SpellGivesGapMatch(parts[1..], wilds[1..]);
      var i := |wilds[0]|;
      var spelled := Spell(parts[1..], wilds[1..]);
      assert rest[i..i + |parts[1]|] == parts[1];
      assert rest[i + |parts[1]|..] == spelled[|parts[1]|..];
      assert OccursAt(rest, parts[1..][0], i);
    }
  }

  lemma MatchesIsGapMatch(key: string, parts: seq<string>)
    requires |parts| >= 2
    ensures Matches(key, parts) <==> OccursAt(key, parts[0], 0) && GapMatch(key[|parts[0]|..], parts[1..])
  {
    if Matches(key, parts) {
      var wilds: seq<string> :| |wilds| == |parts| - 1 && Spell(parts, wilds) == key;
      SpellGivesGapMatch(parts, wilds);
    }
    if OccursAt(key, parts[0], 0) && GapMatch(key[|parts[0]|..], parts[1..]) {
      var wilds := GapMatchSpells(parts[0], key[|parts[0]|..], parts[1..]);
      assert [parts[0]] + parts[1..] == parts;
      assert key == parts[0] + key[|parts[0]|..];
    }
  }

  /** More text in front never hurts: it goes into the first gap. */
  lemma LongerTextStillMatches(rest: string, from: nat, parts: seq<string>)
    requires from <= |rest| && parts != [] && GapMatch(rest[from..], parts)
    ensures GapMatch(rest, parts)
  {
    var cut := rest[from..];
    if |parts| == 1 {
      assert rest[|rest| - |parts[0]|..] == cut[|cut| - |parts[0]|..];
    } else {
      var i: nat :| OccursAt(cut, parts[0], i) && GapMatch(cut[i + |parts[0]|..], parts[1..]);
      assert rest[from + i..from + i + |parts[0]|] == cut[i..i + |parts[0]|];
      assert rest[from + i + |parts[0]|..] == cut[i + |parts[0]|..];
      assert OccursAt(rest, parts[0], from + i);
    }
  }

  /** The exchange argument: taking the leftmost occurrence of a part loses no match. */
  lemma LeftmostIsEnough(rest: string, parts: seq<string>, i: nat)
    requires |parts| >= 2 && OccursAt(rest, parts[0], i)
    requires forall j: nat :: j < i ==> !OccursAt(rest, parts[0], j)
    ensures GapMatch(rest, parts) <==> GapMatch(rest[i + |parts[0]|..], parts[1..])
  {
    if GapMatch(rest, parts) {
      var j: nat :| OccursAt(rest, parts[0], j) && GapMatch(rest[j + |parts[0]|..], parts[1..]);
      var tail := rest[i + |parts[0]|..];
      assert tail[j - i..] == rest[j + |parts[0]|..];
      LongerTextStillMatches(tail, j - i, parts[1..]);
    }
  }

  /** Leftmost occurrence at or after `from`. */
  method IndexOf(s: string, part: string, from: nat) returns (found: bool, index: nat)
    ensures found ==> from <= index && OccursAt(s, part, index)
    ensures found ==> forall j: nat :: from <= j < index ==> !OccursAt(s, part, j)
    ensures !found ==> forall j: nat :: from <= j ==> !OccursAt(s, part, j)
  {
    index := from;
    while index + |part| <= |s|
      invariant from <= index
      invariant forall j: nat :: from <= j < index ==> !OccursAt(s, part, j)
      decreases |s| - index
    {
      if s[index..index + |part|] == part {
        return true, index;
      }
      index := index + 1;
    }
    return false, index;
  }

  lemma SingleWilds(key: string, parts: seq<string>)
    requires |parts| == 1
    ensures Matches(key, parts) <==> key == parts[0]
  {
  }

  lemma OccurrencesShift(key: string, part: string, cursor: nat)
    requires cursor <= |key|
    ensures forall j: nat :: OccursAt(key[cursor..], part, j) <==> OccursAt(key, part, cursor + j)
  {
  }

  lemma LeftmostShifts(key: string, part: string, cursor: nat, index: nat)
    requires cursor <= index && cursor <= |key| && OccursAt(key, part, index)
    requires forall j: nat :: cursor <= j < index ==> !OccursAt(key, part, j)
    ensures OccursAt(key[cursor..], part, index - cursor)
    ensures forall j: nat :: j < index - cursor ==> !OccursAt(key[cursor..], part, j)
  {
    OccurrencesShift(key, part, cursor);
    assert OccursAt(key, part, cursor + (index - cursor));
  }

  /** An empty part between two gaps, or at the end, imposes nothing. */
  lemma SkipEmpty(rest: string, parts: seq<string>)
    requires parts != [] && parts[0] == ""
    ensures |parts| == 1 ==> GapMatch(rest, parts)
    ensures |parts| >= 2 ==> (GapMatch(rest, parts) <==> GapMatch(rest, parts[1..]))
  {
    if |parts| >= 2 {
      assert OccursAt(rest, parts[0], 0);
      LeftmostIsEnough(rest, parts, 0);
      assert rest[0 + |parts[0]|..] == rest;
    }
  }

  lemma NoOccurrenceNoMatch(rest: string, parts: seq<string>)
    requires parts != [] && forall j: nat :: !OccursAt(rest, parts[0], j)
    ensures !GapMatch(rest, parts)
  {
    if |parts| == 1 && EndsWith(rest, parts[0]) {
      assert OccursAt(rest, parts[0], |rest| - |parts[0]|);
    }
  }

  /** How far the greedy loop has reduced the question after `i` parts. */
  ghost predicate Progress(key: string, parts: seq<string>, i: nat, cursor: nat)
    requires |parts| >= 2
  {
    && i <= |parts| && cursor <= |key|
    && (i == 0 ==> cursor == 0)
    && (1 <= i < |parts| ==> (Matches(key, parts) <==> GapMatch(key[cursor..], parts[i..])))
    && (i == |parts| ==> (Matches(key, parts) <==> EndsWith(key, parts[|parts| - 1])))
  }

  lemma EmptyPartKeepsProgress(key: string, parts: seq<string>, i: nat, cursor: nat)
    requires |parts| >= 2 && Progress(key, parts, i, cursor) && i < |parts| && parts[i] == ""
    ensures Progress(key, parts, i + 1, cursor)
  {
    if i == 0 {
      assert OccursAt(key, parts[0], 0);
      MatchesIsGapMatch(key, parts);
    } else {
      SkipEmpty(key[cursor..], parts[i..]);
      if i + 1 < |parts| {
        assert parts[i..][1..] == parts[i + 1..];
      }
    }
  }

  lemma FirstPartKeepsProgress(key: string, parts: seq<string>)
    requires |parts| >= 2
    ensures OccursAt(key, parts[0], 0) ==> Progress(key, parts, 1, |parts[0]|)
    ensures !OccursAt(key, parts[0], 0) ==> !Matches(key, parts)
  {
    MatchesIsGapMatch(key, parts);
  }

  lemma FoundMiddlePart(key: string, parts: seq<string>, i: nat, cursor: nat, index: nat)
    requires i + 1 < |parts| && cursor <= index && cursor <= |key| && OccursAt(key, parts[i], index)
    requires forall j: nat :: cursor <= j < index ==> !OccursAt(key, parts[i], j)
    ensures GapMatch(key[cursor..], parts[i..]) <==> GapMatch(key[index + |parts[i]|..], parts[i + 1..])
  {
    LeftmostShifts(key, parts[i], cursor, index);
    LeftmostIsEnough(key[cursor..], parts[i..], index - cursor);
    assert parts[i..][1..] == parts[i + 1..];
    assert key[cursor..][index - cursor + |parts[i]|..] == key[index + |parts[i]|..];
  }

  lemma FoundLastPart(key: string, parts: seq<string>, cursor: nat, index: nat)
    requires parts != [] && cursor <= index && cursor <= |key| && OccursAt(key, parts[|parts| - 1], index)
    ensures GapMatch(key[cursor..], parts[|parts| - 1..]) <==> EndsWith(key, parts[|parts| - 1])
  {
  }

  lemma FoundPartKeepsProgress(key: string, parts: seq<string>, i: nat, cursor: nat, index: nat)
    requires |parts| >= 2 && Progress(key, parts, i, cursor) && 1 <= i < |parts|
    requires cursor <= index && OccursAt(key, parts[i], index)
    requires forall j: nat :: cursor <= j < index ==> !OccursAt(key, parts[i], j)
    ensures Progress(key, parts, i + 1, index + |parts[i]|)
  {
    if i + 1 < |parts| {
      FoundMiddlePart(key, parts, i, cursor, index);
    } else {
      FoundLastPart(key, parts, cursor, index);
    }
  }

  lemma MissingPartMeansNo(key: string, parts: seq<string>, i: nat, cursor: nat)
    requires |parts| >= 2 && Progress(key, parts, i, cursor) && 1 <= i < |parts|
    requires forall j: nat :: cursor <= j ==> !OccursAt(key, parts[i], j)
    ensures !Matches(key, parts)
  {
    OccurrencesShift(key, parts[i], cursor);
    NoOccurrenceNoMatch(key[cursor..], parts[i..]);
  }

  /**
   * The greedy matcher: the first part anchors the front, later non-empty parts take their leftmost
   * occurrence, and the last part must also end the key.  It decides `Matches` exactly.  (A pattern
   * without parts is never collected; the loop then runs zero times and answers yes.)
   */
  method MatchesPattern(key: string, parts: seq<string>) returns (b: bool)
    ensures parts != [] ==> (b <==> Matches(key, parts))
    ensures parts == [] ==> b
  {
    if |parts| == 1 {
      SingleWilds(key, parts);
      return key == parts[0];
    }
    if |parts| == 0 {
      return true;
    }
    var cursor := 0;
    var i := 0;
    while i < |parts|
      invariant 0 <= cursor && 0 <= i && Progress(key, parts, i, cursor)
    {
      var part := parts[i];
      if part == "" {
        EmptyPartKeepsProgress(key, parts, i, cursor);
      } else if i == 0 {
        FirstPartKeepsProgress(key, parts);
        if !(|part| <= |key| && key[..|part|] == part) {
          return false;
        }
        assert OccursAt(key, part, 0);
        cursor := |part|;
      } else {
        var found, index := IndexOf(key, part, cursor);
        if !found {
          MissingPartMeansNo(key, parts, i, cursor);
          return false;
        }
        FoundPartKeepsProgress(key, parts, i, cursor, index);
        cursor := index + |part|;
      }
      i := i + 1;
    }
    var last := parts[|parts| - 1];
    b := last == "" || (|last| <= |key| && key[|key| - |last|..] == last);
  }
}
